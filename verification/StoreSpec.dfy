/** The learning store as a state machine over its file: every operation as a function of the state,
    with the outcome of each system call as a parameter. */
module StoreSpec {
  import opened Bytes
  import opened Predictor
  import opened RflFormat
  import opened LearningModel
  import Latency

  /** How far the system calls of one flush get: bytes of slab data written before an error or a
      crash, whether the truncation took effect, bytes of the header written, whether the data was
      synchronised. A crash after some step leaves the file that a failure of that step leaves. */
  datatype Io = Io(dataBytes: nat, truncated: bool, headerBytes: nat, synced: bool)

  datatype Config = Config(abiVersion: u32, minSupport: u32, maxErrorPpm: u32)

  datatype State =
    | Closed(file: seq<byte>)
    | Open(file: seq<byte>, header: Header, committed: nat, recoveredTail: bool, mode: Mode,
           model: Model, slab: seq<Record>, dropped: nat, latency: Latency.Window)

  // ----- The file

  /** A positioned write of the first `n` bytes of `data`; a gap before it reads as zeros. */
  function Write(file: seq<byte>, at: nat, data: seq<byte>, n: nat): (f: seq<byte>)
    requires n <= |data|
  {
    var base := if |file| < at then file + seq(at - |file|, _ => 0) else file;
    base[..at] + data[..n] + (if at + n < |base| then base[at + n..] else [])
  }

  function Resize(file: seq<byte>, size: nat): (f: seq<byte>)
    ensures |f| == size
  {
    if |file| < size then file + seq(size - |file|, _ => 0) else file[..size]
  }

  function DataEnd(records: nat): nat {
    HEADER_BYTES + RECORD_BYTES * records
  }

  // ----- Flushing

  function HeaderNow(s: State): Header
    requires s.Open?
  {
    s.header.(committed := s.committed % U64)
  }

  function WriteSlab(s: State, io: Io): (r: (Status, State))
    requires s.Open?
    ensures r.1.Open?
  {
    var data := EncodeAll(s.slab);
    if s.slab == [] then (Ok, s)
    else if io.dataBytes < |data| then
      (ErrIo, s.(file := Write(s.file, DataEnd(s.committed), data, io.dataBytes)))
    else
      (Ok, s.(file := Write(s.file, DataEnd(s.committed), data, |data|),
              committed := s.committed + |s.slab|, slab := []))
  }

  function WriteHeader(s: State, io: Io): (r: (Status, State))
    requires s.Open?
    ensures r.1.Open?
  {
    var bytes := EncodeHeader(HeaderNow(s));
    if io.headerBytes < HEADER_BYTES then (ErrIo, s.(file := Write(s.file, 0, bytes, io.headerBytes)))
    else (Ok, s.(file := Write(s.file, 0, bytes, HEADER_BYTES)))
  }

  function Flush(s: State, durable: bool, io: Io): (r: (Status, State))
    requires s.Open?
    ensures r.1.Open?
  {
    var (rc, s1) := WriteSlab(s, io);
    if rc != Ok then (rc, s1)
    else if !io.truncated then (ErrIo, s1)
    else
      var s2 := s1.(file := Resize(s1.file, DataEnd(s1.committed)));
      var (rc', s3) := WriteHeader(s2, io);
      if rc' != Ok then (rc', s3)
      else (if durable && !io.synced then ErrIo else Ok, s3)
  }

  lemma FlushKeepsMode(s: State, durable: bool, io: Io)
    requires s.Open?
    ensures Flush(s, durable, io).1.mode == s.mode
  {
    hide EncodeAll, EncodeHeader, Write, Resize;
  }

  // ----- Operations

  predicate ConfigValid(c: Config) {
    c.abiVersion == 1 && c.minSupport != 0 && c.maxErrorPpm <= 1_000_000
  }

  /** `canOpen`: the file could be opened and inspected. `nowNs`: the clock, for a new file. */
  function Init(s: State, config: Config, canOpen: bool, nowNs: u64, io: Io): (Status, State) {
    if s.Open? then (ErrState, s)
    else if !ConfigValid(config) then (ErrArg, s)
    else if !canOpen then (ErrIo, s)
    else if s.file == [] then
      var blank := Loaded([], Header(0, nowNs, 1, 0, 0, 0), [], false);
      var (rc, s1) := WriteHeader(blank, io);
      if rc != Ok || !io.synced then (ErrIo, Closed(s1.file)) else (Ok, s1)
    else if |s.file| < HEADER_BYTES then (ErrIo, s)
    else
      var rc := HeaderStatus(s.file[..HEADER_BYTES]);
      if rc != Ok then (rc, s)
      else
        var payload := s.file[HEADER_BYTES..];
        (Ok, Loaded(s.file, DecodeHeader(s.file[..HEADER_BYTES]), Recover(payload), TailLost(payload)))
  }

  function Loaded(file: seq<byte>, header: Header, records: seq<Record>, tail: bool): (s: State)
    ensures s.Open?
  {
    Open(file, header, |records|, tail, OFF, Reopened(records), [], 0, Latency.Blank())
  }

  function Bumped(h: Header): Header {
    h.(epoch := (h.epoch + 1) % U64)
  }

  function SetMode(s: State, mode: nat, io: Io): (Status, State) {
    if mode > FROZEN then (ErrArg, s)
    else if s.Closed? then (ErrState, s)
    else
      var (rc, s1) := if mode == OFF || mode == FROZEN then Flush(s, true, io) else (Ok, s);
      if rc != Ok then (rc, s1)
      else (Ok, s1.(header := if s.mode != mode then Bumped(s1.header) else s1.header, mode := mode))
  }

  predicate Accepts(s: State) {
    s.Open? && s.mode != OFF && s.mode != FROZEN
  }

  /** A full slab is flushed. */
  function Settle(s: State, io: Io): (r: (Status, State))
    requires s.Open?
    ensures r.1.Open?
  {
    if |s.slab| != SLAB_RECORDS then (Ok, s)
    else
      var (rc, s1) := Flush(s, false, io);
      (rc, if rc != Ok then s1.(dropped := s1.dropped + 1) else s1)
  }

  function Observe(s: State, input: Input, endedNs: nat, io: Io): (Status, State) {
    if !Accepts(s) then (ErrState, s)
    else if |s.slab| >= SLAB_RECORDS then
      (ErrCapacity, s.(model := Trained(s.model, s.mode, input), dropped := s.dropped + 1))
    else
      var s1 := s.(model := Observed(s.model, s.mode, input),
                   slab := s.slab + [RecordFor(s.model, s.mode, input)]);
      var (rc, s3) := Settle(s1, io);
      (rc, if endedNs >= input.startedNs then s3.(latency := Latency.Push(s3.latency, endedNs - input.startedNs))
           else s3)
  }

  function FlushNow(s: State, io: Io): (Status, State) {
    if s.Closed? then (ErrState, s) else Flush(s, true, io)
  }

  /** The header is written a second time, with the new epoch. */
  function Freeze(s: State, io: Io, again: Io): (Status, State) {
    if s.Closed? then (ErrState, s)
    else
      var (rc, s1) := Flush(s, true, io);
      if rc != Ok then (rc, s1)
      else
        var s2 := s1.(mode := FROZEN, header := Bumped(s1.header));
        var (rc', s3) := WriteHeader(s2, again);
        (if rc' != Ok then rc' else if !again.synced then ErrIo else Ok, s3)
  }

  function ResetVolatile(s: State): (Status, State) {
    if s.Closed? || Accepts(s) then (ErrState, s)
    else
      (Ok, s.(model := s.model.(table := EmptyTable(), predictions := 0, correct := 0, incorrect := 0),
              latency := s.latency.(count := 0, cursor := 0), header := Bumped(s.header)))
  }

  /** `closed`: the file descriptor was closed without error. */
  function Close(s: State, io: Io, closed: bool): (Status, State) {
    if s.Closed? then (ErrState, s)
    else
      var (rc, s1) := Flush(s, true, io);
      (if rc == Ok && !closed then ErrIo else rc, Closed(s1.file))
  }

  function PredictNow(s: State, context: bv64): (Status, Prediction) {
    if s.Closed? || !(Learns(s.mode) || s.mode == FROZEN) then (ErrState, NoPrediction)
    else
      var p := Predict(s.model.table, context);
      (if p == NoPrediction then ErrCapacity else Ok, p)
  }

  // ----- Runs

  datatype Op =
    | OpInit(config: Config, canOpen: bool, nowNs: u64, io: Io)
    | OpSetMode(mode: nat, io: Io)
    | OpObserve(input: Input, endedNs: nat, io: Io)
    | OpFlush(io: Io)
    | OpFreeze(io: Io, again: Io)
    | OpReset
    | OpClose(io: Io, closed: bool)

  function Step(s: State, op: Op): (Status, State) {
    match op
    case OpInit(config, canOpen, nowNs, io) => Init(s, config, canOpen, nowNs, io)
    case OpSetMode(mode, io) => SetMode(s, mode, io)
    case OpObserve(input, endedNs, io) => Observe(s, input, endedNs, io)
    case OpFlush(io) => FlushNow(s, io)
    case OpFreeze(io, again) => Freeze(s, io, again)
    case OpReset => ResetVolatile(s)
    case OpClose(io, closed) => Close(s, io, closed)
  }

  function Run(s: State, ops: seq<Op>): State {
    if ops == [] then s else Step(Run(s, ops[..|ops| - 1]), ops[|ops| - 1]).1
  }
}
