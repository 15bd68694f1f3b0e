/** The learning store in memory: one object with the predictor table, the slab, the counters and
    the latency ring, updated in place, and the file it writes to. */
module LearningStore {
  import opened Bytes
  import opened Predictor
  import opened RflFormat
  import opened LearningModel
  import opened StoreSpec
  import Latency

  datatype Counters = Counters(
    nextSequence: u64, observations: nat, predictions: nat, correct: nat, incorrect: nat,
    dropped: nat, tracked: nat, highWater: nat)

  const NO_COUNTS: Counters := Counters(0, 0, 0, 0, 0, 0, 0, 0)

  datatype Rest = RestOf(file: seq<byte>, initialized: bool, recoveredTail: bool, mode: Mode, header: Header,
                         committed: nat, slabUsed: nat, dropped: nat, latencyCount: nat, latencyCursor: nat)

  class Store {
    var file: seq<byte>
    var initialized: bool
    var recoveredTail: bool
    var mode: Mode
    var header: Header
    var committed: nat
    const predictor: array<Entry>
    var entriesUsed: nat
    const slab: array<Record>
    var slabUsed: nat
    var counters: Counters
    const samples: array<nat>
    var latencyCount: nat
    var latencyCursor: nat

    ghost predicate Valid()
      reads this, predictor, slab, samples
    {
      && predictor.Length == ENTRIES && slab.Length == SLAB_RECORDS && samples.Length == Latency.SAMPLES
      && slabUsed <= SLAB_RECORDS
      && Latency.Ring(samples[..], latencyCount, latencyCursor).Shape()
      && entriesUsed == InUse(predictor[..])
    }

    ghost function ModelNow(): Model
      requires predictor.Length == ENTRIES
      reads this, predictor
    {
      var c := counters;
      Model(predictor[..], c.nextSequence, c.observations, c.predictions, c.correct, c.incorrect, c.tracked, c.highWater)
    }

    /** Everything but the model. */
    ghost function Rest(): Rest
      reads this
    {
      RestOf(file, initialized, recoveredTail, mode, header, committed, slabUsed, counters.dropped, latencyCount, latencyCursor)
    }

    ghost function State(): State
      requires Valid()
      reads this, predictor, slab, samples
    {
      if !initialized then Closed(file)
      else Open(file, header, committed, recoveredTail, mode, ModelNow(), slab[..slabUsed], counters.dropped,
                Latency.Ring(samples[..], latencyCount, latencyCursor))
    }

    /** A store that has not been opened, over the bytes of its file. */
    constructor (bytes: seq<byte>)
      ensures Valid() && State() == Closed(bytes)
      ensures fresh(predictor) && fresh(slab) && fresh(samples)
    {
      file := bytes;
      initialized, recoveredTail, mode := false, false, OFF;
      header, committed := Header(0, 0, 0, 0, 0, 0), 0;
      var table := new Entry[ENTRIES](_ => VACANT);
      predictor, entriesUsed := table, 0;
      slab, slabUsed := new Record[SLAB_RECORDS], 0;
      counters := NO_COUNTS;
      samples := new nat[Latency.SAMPLES](_ => 0);
      latencyCount, latencyCursor := 0, 0;
      new;
      NothingInUse(predictor[..]);
    }

    /** Clears everything but the file, as at the start of opening. */
    method ClearMemory()
      requires Valid()
      modifies this, predictor, slab, samples
      ensures Valid() && file == old(file) && !initialized && !recoveredTail && mode == OFF && committed == 0
      ensures ModelNow() == FreshModel() && slabUsed == 0 && counters.dropped == 0
      ensures Latency.Ring(samples[..], latencyCount, latencyCursor) == Latency.Blank()
    {
      hide InUse, EmptyTable, Latency.Blank;
      ClearSamples();
      ClearTable();
      initialized, recoveredTail, mode := false, false, OFF;
      header, committed, slabUsed := Header(0, 0, 0, 0, 0, 0), 0, 0;
      counters := NO_COUNTS;
    }

    method ClearSamples()
      requires Valid()
      modifies this`latencyCount, this`latencyCursor, samples
      ensures Valid() && Latency.Ring(samples[..], latencyCount, latencyCursor) == Latency.Blank()
    {
      hide InUse;
      forall i | 0 <= i < Latency.SAMPLES {
        samples[i] := 0;
      }
      latencyCount, latencyCursor := 0, 0;
      assert samples[..] == Latency.Blank().samples;
      assert predictor[..] == old(predictor[..]);
    }

    method ClearTable()
      requires Valid()
      modifies this`entriesUsed, predictor
      ensures Valid() && predictor[..] == EmptyTable()
    {
      forall i | 0 <= i < ENTRIES {
        predictor[i] := VACANT;
      }
      entriesUsed := 0;
      assert predictor[..] == EmptyTable();
      NothingInUse(predictor[..]);
    }

    // ----- Flushing

    method WriteHeaderNow(io: Io) returns (rc: Status)
      requires Valid() && initialized
      modifies this
      ensures Valid() && initialized && (rc, State()) == WriteHeader(old(State()), io)
    {
      hide EncodeHeader, Write;
      var bytes := EncodeHeader(header.(committed := committed % U64));
      if io.headerBytes < HEADER_BYTES {
        file := Write(file, 0, bytes, io.headerBytes);
        return ErrIo;
      }
      file := Write(file, 0, bytes, HEADER_BYTES);
      rc := Ok;
    }

    method FlushSlab(durable: bool, io: Io) returns (rc: Status)
      requires Valid() && initialized
      modifies this
      ensures Valid() && initialized && (rc, State()) == Flush(old(State()), durable, io)
    {
      hide EncodeHeader, EncodeAll, Write, Resize;
      if slabUsed != 0 {
        var data := EncodeAll(slab[..slabUsed]);
        if io.dataBytes < |data| {
          file := Write(file, DataEnd(committed), data, io.dataBytes);
          return ErrIo;
        }
        file := Write(file, DataEnd(committed), data, |data|);
        committed := committed + slabUsed;
        slabUsed := 0;
      }
      if !io.truncated {
        return ErrIo;
      }
      file := Resize(file, DataEnd(committed));
      rc := WriteHeaderNow(io);
      if rc == Ok && durable && !io.synced {
        rc := ErrIo;
      }
    }

    // ----- Learning and replaying

    method LearnEntry(context: bv64, candidate: u32, sequence: nat, cost: u64)
      requires Valid()
      modifies this`entriesUsed, predictor
      ensures Valid() && predictor[..] == Learn(old(predictor[..]), context, candidate, sequence, cost)
    {
      hide Learn, InUse;
      var grew := LearnInPlace(predictor, context, candidate, sequence, cost);
      if grew {
        entriesUsed := entriesUsed + 1;
      }
    }

    method Remember(total: nat)
      modifies this`counters
      ensures counters == old(counters).(
        tracked := total, highWater := if total > old(counters).highWater then total else old(counters).highWater)
    {
      counters := counters.(tracked := total);
      if counters.tracked > counters.highWater {
        counters := counters.(highWater := counters.tracked);
      }
    }

    method ReplayOne(r: Record)
      requires Valid() && !initialized
      modifies this, predictor
      ensures Valid() && ModelNow() == ReplayRecord(old(ModelNow()), r) && Rest() == old(Rest())
    {
      hide Learn, InUse;
      counters := counters.(observations := counters.observations + 1);
      if HasFlag(r, FLAG_PREDICTION_VALID) {
        counters := counters.(predictions := counters.predictions + 1);
        if HasFlag(r, FLAG_PREDICTION_CORRECT) {
          counters := counters.(correct := counters.correct + 1);
        } else {
          counters := counters.(incorrect := counters.incorrect + 1);
        }
      }
      if HasFlag(r, FLAG_LEARNING_UPDATE) {
        LearnEntry(r.context, r.candidate, r.sequence, r.cost);
      }
      if r.sequence >= counters.nextSequence {
        counters := counters.(nextSequence := (r.sequence + 1) % U64);
      }
      var total := counters.tracked + r.memoryDelta;
      Remember(if total < 0 then 0 else total);
    }

    /** Replays up to `batch` records from record `first` of the file on, and stops at one that
        fails its check. */
    method ReplayBatch(first: nat, batch: nat, ghost earlier: seq<Record>)
      returns (done: nat, ghost replayed: seq<Record>)
      requires Valid() && !initialized && HEADER_BYTES + RECORD_BYTES * (first + batch) <= |file|
      requires ModelNow() == Replay(earlier)
      modifies this, predictor
      ensures Valid() && done <= batch && |replayed| == done && Rest() == old(Rest())
      ensures ModelNow() == Replay(earlier + replayed)
      ensures var payload := file[HEADER_BYTES..];
              Recover(payload[RECORD_BYTES * first..])
              == replayed + (if done == batch then Recover(payload[RECORD_BYTES * (first + batch)..]) else [])
    {
      hide InUse, Learn, RecordOk, DecodeRecord, ReplayRecord, Recover, Replay;
      ghost var payload := file[HEADER_BYTES..];
      done, replayed := 0, [];
      assert earlier + [] == earlier;
      Prepended(Recover(payload[RECORD_BYTES * first..]));
      while done < batch
        invariant done <= batch && |replayed| == done
        invariant Valid() && Rest() == old(Rest())
        invariant ModelNow() == Replay(earlier + replayed)
        invariant Recover(payload[RECORD_BYTES * first..])
               == replayed + Recover(payload[RECORD_BYTES * (first + done)..])
      {
        var at := RECORD_BYTES * (first + done);
        var block := file[HEADER_BYTES + at..HEADER_BYTES + at + RECORD_BYTES];
        RecoverAt(payload, at);
        assert block == payload[at..][..RECORD_BYTES];
        if !RecordOk(block) {
          return;
        }
        var record := DecodeRecord(block);
        ReplayOne(record);
        ReplaySnoc(earlier + replayed, record);
        assert earlier + replayed + [record] == earlier + (replayed + [record]);
        Regroup(replayed, record, Recover(payload[at + RECORD_BYTES..]));
        replayed := replayed + [record];
        done := done + 1;
      }
    }

    /** Replays the records of the file, a slab of them at a time. */
    method ReplayFile()
      requires Valid() && !initialized && |file| >= HEADER_BYTES
      requires ModelNow() == FreshModel() && !recoveredTail && slabUsed == 0
      modifies this, predictor
      ensures Valid()
      ensures Rest() == old(Rest()).(committed := committed, recoveredTail := recoveredTail)
      ensures ModelNow() == Replay(Recover(file[HEADER_BYTES..]))
      ensures committed == |Recover(file[HEADER_BYTES..])|
      ensures recoveredTail == TailLost(file[HEADER_BYTES..])
    {
      hide InUse, Recover, Replay, FreshModel;
      ghost var payload := file[HEADER_BYTES..];
      var full := (|file| - HEADER_BYTES) / RECORD_BYTES;
      if (|file| - HEADER_BYTES) % RECORD_BYTES != 0 {
        recoveredTail := true;
      }
      var valid := 0;
      ghost var records: seq<Record> := [];
      ReplayNothing(payload);
      while valid < full
        invariant valid <= full && |records| == valid
        invariant Valid() && Rest() == old(Rest()).(recoveredTail := recoveredTail)
        invariant ModelNow() == Replay(records)
        invariant Recover(payload) == records + Recover(payload[RECORD_BYTES * valid..])
        invariant recoveredTail == (|payload| % RECORD_BYTES != 0)
        decreases full - valid
      {
        var batch := if full - valid > SLAB_RECORDS then SLAB_RECORDS else full - valid;
        var done;
        ghost var replayed;
        done, replayed := ReplayBatch(valid, batch, records);
        ghost var rest := if done == batch then Recover(payload[RECORD_BYTES * (valid + batch)..]) else [];
        assert Recover(payload) == records + replayed + rest;
        records := records + replayed;
        if done < batch {
          recoveredTail := true;
          committed := valid + done;
          assert records + [] == records;
          return;
        }
        valid := valid + batch;
      }
      committed := valid;
      NothingLeft(payload, full);
      assert records + [] == records;
    }

    // ----- The interface

    method Init(config: Config, canOpen: bool, nowNs: u64, io: Io) returns (rc: Status)
      requires Valid()
      modifies this, predictor, slab, samples
      ensures Valid() && (rc, State()) == StoreSpec.Init(old(State()), config, canOpen, nowNs, io)
    {
      hide WriteHeader, HeaderStatus, DecodeHeader, Recover, Reopened, InUse;
      if initialized {
        return ErrState;
      }
      ClearMemory();
      if !ConfigValid(config) {
        return ErrArg;
      }
      if !canOpen {
        return ErrIo;
      }
      if file == [] {
        rc := CreateFile(nowNs, io);
        return;
      }
      if |file| < HEADER_BYTES {
        return ErrIo;
      }
      rc := HeaderStatus(file[..HEADER_BYTES]);
      if rc == Ok {
        LoadFile();
      }
    }

    method CreateFile(nowNs: u64, io: Io) returns (rc: Status)
      requires Valid() && !initialized && file == []
      requires ModelNow() == FreshModel() && !recoveredTail && slabUsed == 0 && counters.dropped == 0
      requires mode == OFF && committed == 0
      requires Latency.Ring(samples[..], latencyCount, latencyCursor) == Latency.Blank()
      modifies this
      ensures Valid()
      ensures var (rc', s) := WriteHeader(Loaded([], Header(0, nowNs, 1, 0, 0, 0), [], false), io);
        && rc == (if rc' != Ok || !io.synced then ErrIo else Ok)
        && State() == (if rc == Ok then s else Closed(s.file))
    {
      hide WriteHeader, InUse, Learn;
      header := Header(0, nowNs, 1, 0, 0, 0);
      EmptyReplay();
      counters := counters.(nextSequence := 1);
      initialized := true;
      assert slab[..0] == [];
      rc := WriteHeaderNow(io);
      if rc != Ok || !io.synced {
        rc := ErrIo;
      }
      initialized := rc == Ok;
    }

    method LoadFile()
      requires Valid() && !initialized && |file| >= HEADER_BYTES
      requires ModelNow() == FreshModel() && !recoveredTail && slabUsed == 0 && counters.dropped == 0 && mode == OFF
      requires Latency.Ring(samples[..], latencyCount, latencyCursor) == Latency.Blank()
      modifies this, predictor
      ensures Valid() && file == old(file)
      ensures State() == Loaded(file, DecodeHeader(file[..HEADER_BYTES]), Recover(file[HEADER_BYTES..]),
                                TailLost(file[HEADER_BYTES..]))
    {
      hide InUse, Recover, Replay, DecodeHeader, FreshModel, Latency.Blank, TailLost;
      header := DecodeHeader(file[..HEADER_BYTES]);
      ReplayFile();
      if counters.nextSequence == 0 {
        counters := counters.(nextSequence := (committed + 1) % U64);
      }
      initialized := true;
      assert slab[..0] == [];
    }

    method SetMode(newMode: nat, io: Io) returns (rc: Status)
      requires Valid()
      modifies this
      ensures Valid() && (rc, State()) == StoreSpec.SetMode(old(State()), newMode, io)
    {
      hide Flush, InUse;
      if newMode > FROZEN {
        return ErrArg;
      }
      if !initialized {
        return ErrState;
      }
      if newMode == OFF || newMode == FROZEN {
        FlushKeepsMode(State(), true, io);
        rc := FlushSlab(true, io);
        if rc != Ok {
          return;
        }
      }
      if mode != newMode {
        header := Bumped(header);
      }
      mode := newMode;
      rc := Ok;
    }

    method PredictFor(context: bv64) returns (rc: Status, p: Prediction)
      requires Valid()
      ensures (rc, p) == PredictNow(State(), context)
    {
      hide Predict;
      if !initialized || !(Learns(mode) || mode == FROZEN) {
        return ErrState, NoPrediction;
      }
      p := PredictFrom(predictor, context);
      rc := if p == NoPrediction then ErrCapacity else Ok;
    }

    /** Predict, count the outcome, draw a sequence number, learn. */
    method Train(input: Input) returns (record: Record)
      requires Valid() && initialized
      modifies this, predictor
      ensures Valid() && ModelNow() == Trained(old(ModelNow()), mode, input) && Rest() == old(Rest())
      ensures record == RecordFor(old(ModelNow()), mode, input)
    {
      hide Learn, Predict, InUse, FlagsOf, FoldAux;
      var forecast := NoPrediction;
      if Learns(mode) {
        forecast := PredictFrom(predictor, input.context);
        if forecast != NoPrediction {
          counters := counters.(predictions := counters.predictions + 1);
          if forecast.candidate == input.candidate {
            counters := counters.(correct := counters.correct + 1);
          } else {
            counters := counters.(incorrect := counters.incorrect + 1);
          }
        }
      }
      var sequence := counters.nextSequence;
      counters := counters.(nextSequence := (sequence + 1) % U64);
      if Learns(mode) {
        LearnEntry(input.context, input.candidate, sequence, input.cost);
      }
      var found := forecast != NoPrediction;
      record := Record(sequence, input.startedNs, input.context, input.eventType, input.candidate,
                       if found then forecast.candidate else 0, if found then forecast.support else 0,
                       ClampCost(input.cost), ClampDelta(input.memoryDelta), FoldAux(input.aux),
                       if found then forecast.confidence else 0,
                       if found then 65535 - forecast.confidence else 65535,
                       FlagsOf(mode, forecast, input.candidate));
    }

    method RecordLatency(elapsed: nat)
      requires Valid()
      modifies this`latencyCount, this`latencyCursor, samples
      ensures Valid()
      ensures Latency.Ring(samples[..], latencyCount, latencyCursor)
           == Latency.Push(old(Latency.Ring(samples[..], latencyCount, latencyCursor)), elapsed)
    {
      hide InUse;
      samples[latencyCursor] := elapsed;
      latencyCursor := (latencyCursor + 1) % Latency.SAMPLES;
      if latencyCount < Latency.SAMPLES {
        latencyCount := latencyCount + 1;
      }
    }

    method Append(record: Record, total: nat)
      requires Valid() && initialized && slabUsed < SLAB_RECORDS
      modifies this, slab
      ensures Valid() && initialized
      ensures var s := old(State());
        State() == s.(slab := s.slab + [record],
                      model := Remembered(s.model.(observations := s.model.observations + 1), total))
    {
      hide InUse;
      ghost var buffered := slab[..slabUsed];
      slab[slabUsed] := record;
      slabUsed := slabUsed + 1;
      assert slab[..slabUsed] == buffered + [record];
      counters := counters.(observations := counters.observations + 1);
      Remember(total);
    }

    method SettleSlab(io: Io) returns (rc: Status)
      requires Valid() && initialized
      modifies this
      ensures Valid() && initialized && (rc, State()) == Settle(old(State()), io)
    {
      hide Flush, InUse;
      rc := Ok;
      if slabUsed == SLAB_RECORDS {
        rc := FlushSlab(false, io);
        if rc != Ok {
          counters := counters.(dropped := counters.dropped + 1);
        }
      }
    }

    method ObserveAccepted(input: Input, endedNs: nat, io: Io) returns (rc: Status)
      requires Valid() && Accepts(State())
      modifies this, predictor, slab, samples
      ensures Valid() && (rc, State()) == StoreSpec.Observe(old(State()), input, endedNs, io)
    {
      hide Trained, Remembered, InUse, Settle, RecordFor, LiveMemory, Latency.Push;
      var total := LiveMemory(counters.tracked, input.memoryDelta);
      var record := Train(input);
      if slabUsed >= SLAB_RECORDS {
        counters := counters.(dropped := counters.dropped + 1);
        return ErrCapacity;
      }
      Append(record, total);
      rc := SettleSlab(io);
      if endedNs >= input.startedNs {
        RecordLatency(endedNs - input.startedNs);
      }
    }

    method Observe(input: Input, endedNs: nat, io: Io) returns (rc: Status)
      requires Valid()
      modifies this, predictor, slab, samples
      ensures Valid() && (rc, State()) == StoreSpec.Observe(old(State()), input, endedNs, io)
    {
      hide Trained, Remembered, InUse, Settle, RecordFor, LiveMemory, Latency.Push;
      if !initialized || mode == OFF || mode == FROZEN {
        return ErrState;
      }
      rc := ObserveAccepted(input, endedNs, io);
    }

    method FlushStore(io: Io) returns (rc: Status)
      requires Valid()
      modifies this
      ensures Valid() && (rc, State()) == FlushNow(old(State()), io)
    {
      hide Flush, InUse;
      if !initialized {
        return ErrState;
      }
      rc := FlushSlab(true, io);
    }

    method Freeze(io: Io, again: Io) returns (rc: Status)
      requires Valid()
      modifies this
      ensures Valid() && (rc, State()) == StoreSpec.Freeze(old(State()), io, again)
    {
      hide Flush, InUse, WriteHeader;
      if !initialized {
        return ErrState;
      }
      rc := FlushSlab(true, io);
      if rc == Ok {
        mode := FROZEN;
        header := Bumped(header);
        rc := WriteHeaderNow(again);
        if rc == Ok && !again.synced {
          rc := ErrIo;
        }
      }
    }

    method ResetVolatile() returns (rc: Status)
      requires Valid()
      modifies this, predictor
      ensures Valid() && (rc, State()) == StoreSpec.ResetVolatile(old(State()))
    {
      hide InUse;
      if !initialized || (mode != OFF && mode != FROZEN) {
        return ErrState;
      }
      ClearTable();
      counters := counters.(predictions := 0, correct := 0, incorrect := 0);
      latencyCount, latencyCursor := 0, 0;
      header := Bumped(header);
      rc := Ok;
    }

    method Close(io: Io, closed: bool) returns (rc: Status)
      requires Valid()
      modifies this, predictor, slab, samples
      ensures Valid() && (rc, State()) == StoreSpec.Close(old(State()), io, closed)
    {
      hide Flush, InUse;
      if !initialized {
        return ErrState;
      }
      rc := FlushSlab(true, io);
      if !closed && rc == Ok {
        rc := ErrIo;
      }
      ClearMemory();
    }

    /** The three percentiles of a snapshot. */
    method Overheads() returns (p50: nat, p95: nat, p99: nat)
      requires Valid()
      ensures var r := Latency.Ring(samples[..], latencyCount, latencyCursor);
              p50 == Latency.Percentile(r, 50, 100) && p95 == Latency.Percentile(r, 95, 100)
              && p99 == Latency.Percentile(r, 99, 100)
      ensures p50 <= p95 <= p99
    {
      ghost var r := Latency.Ring(samples[..], latencyCount, latencyCursor);
      p50 := Latency.ComputePercentile(samples, latencyCount, latencyCursor, 50, 100);
      p95 := Latency.ComputePercentile(samples, latencyCount, latencyCursor, 95, 100);
      p99 := Latency.ComputePercentile(samples, latencyCount, latencyCursor, 99, 100);
      Latency.PercentilesOrdered(r, 50, 95, 100);
      Latency.PercentilesOrdered(r, 95, 99, 100);
    }
  }

  // ----- Facts the methods use

  lemma {:induction false} NothingInUse(t: seq<Entry>)
    requires forall i :: 0 <= i < |t| ==> t[i] == VACANT
    ensures InUse(t) == 0
  {
    if t != [] {
      NothingInUse(t[..|t| - 1]);
    }
  }

  lemma EmptyReplay()
    ensures Reopened([]) == FreshModel().(nextSequence := 1)
  {
  }

  lemma ReplayNothing(payload: seq<byte>)
    ensures Replay([]) == FreshModel()
    ensures Recover(payload) == [] + Recover(payload[RECORD_BYTES * 0..])
  {
    hide Recover;
    assert payload[0..] == payload;
    assert [] + Recover(payload) == Recover(payload);
  }

  lemma Prepended(s: seq<Record>)
    ensures [] + s == s
  {
  }

  lemma Regroup(a: seq<Record>, r: Record, b: seq<Record>)
    ensures a + ([r] + b) == a + [r] + b
  {
  }

  lemma ReplaySnoc(records: seq<Record>, r: Record)
    ensures Replay(records + [r]) == ReplayRecord(Replay(records), r)
  {
    hide ReplayRecord;
    assert (records + [r])[..|records|] == records;
  }

  lemma RecoverAt(payload: seq<byte>, at: nat)
    requires at + RECORD_BYTES <= |payload|
    ensures |payload[at..]| >= RECORD_BYTES
    ensures var block := payload[at..][..RECORD_BYTES];
      Recover(payload[at..]) == if RecordOk(block) then [DecodeRecord(block)] + Recover(payload[at + RECORD_BYTES..]) else []
  {
    hide RecordOk, DecodeRecord;
    assert payload[at..][RECORD_BYTES..] == payload[at + RECORD_BYTES..];
  }

  lemma NothingLeft(payload: seq<byte>, full: nat)
    requires full == |payload| / RECORD_BYTES
    ensures Recover(payload[RECORD_BYTES * full..]) == []
  {
    assert |payload[RECORD_BYTES * full..]| < RECORD_BYTES;
  }
}
