/** What a stopped flush leaves when there were bytes behind the committed records, as after a recovered
    tail: the exact condition under which replay finds the right records, and a run in which it does
    not. */
module StoreTails {
  import opened Bytes
  import opened RflFormat
  import opened LearningModel
  import opened StoreSpec
  import opened StoreProofs

  /** How many bytes of the slab a flush writes. */
  function Attempted(s: State, io: Io): (n: nat)
    requires s.Open?
    ensures n <= RECORD_BYTES * |s.slab|
  {
    if io.dataBytes < RECORD_BYTES * |s.slab| then io.dataBytes else RECORD_BYTES * |s.slab|
  }

  predicate Cut(s: State, io: Io)
    requires s.Open?
  {
    Attempted(s, io) == RECORD_BYTES * |s.slab| && io.truncated
  }

  function Whole(s: State, io: Io): (k: nat)
    requires s.Open?
    ensures k <= |s.slab|
  {
    Attempted(s, io) / RECORD_BYTES
  }

  /** What lies behind the last whole record written: the beginning of the next one, and then the old
      bytes that were not overwritten, unless the file was cut. */
  function Left(s: State, io: Io): seq<byte>
    requires s.Open? && DataEnd(s.committed) <= |s.file|
  {
    if Cut(s, io) then []
    else
      var n := Attempted(s, io);
      EncodeAll(s.slab)[RECORD_BYTES * Whole(s, io)..n] + if n < |Tail(s)| then Tail(s)[n..] else []
  }

  // ----- The bytes in the file

  lemma {:induction false} EncodePrefix(records: seq<Record>, k: nat)
    requires k <= |records|
    ensures EncodeAll(records)[..RECORD_BYTES * k] == EncodeAll(records[..k])
  {
    hide EncodeRecord;
    assert records == records[..k] + records[k..];
    EncodeConcat(records[..k], records[k..]);
  }

  lemma SlabOverTail(s: State, io: Io)
    requires s.Open? && DataEnd(s.committed) <= |s.file|
    ensures var n, f := Attempted(s, io), WriteSlab(s, io).1.file;
            && |f| >= HEADER_BYTES
            && f[HEADER_BYTES..] == Region(s) + (EncodeAll(s.slab)[..n] + if n < |Tail(s)| then Tail(s)[n..] else [])
  {
    hide EncodeAll, Write;
    var data, at, n := EncodeAll(s.slab), DataEnd(s.committed), Attempted(s, io);
    var f := WriteSlab(s, io).1.file;
    if s.slab == [] {
      assert f[HEADER_BYTES..] == Region(s) + Tail(s);
    } else {
      assert f == Write(s.file, at, data, n);
      Overlaid(s.file, at, data, n);
    }
  }

  lemma Overlaid(file: seq<byte>, at: nat, data: seq<byte>, n: nat)
    requires HEADER_BYTES <= at <= |file| && n <= |data|
    ensures var f := Write(file, at, data, n);
            && |f| >= at
            && f[HEADER_BYTES..] == file[HEADER_BYTES..at] + (data[..n] + if n < |file[at..]| then file[at..][n..] else [])
  {
    hide Write;
    WriteParts(file, at, data, n);
    var f := Write(file, at, data, n);
    assert f == f[..at] + (f[at..at + n] + f[at + n..]);
    assert f[..at] == file[..at];
    assert f[HEADER_BYTES..] == f[..at][HEADER_BYTES..] + (f[at..at + n] + f[at + n..]);
    assert file[HEADER_BYTES..at] == file[..at][HEADER_BYTES..];
    if n < |file[at..]| {
      assert file[at..][n..] == file[at + n..];
    } else {
      assert f[at + n..] == [];
    }
  }

  /** Whole records, and then bytes of any kind. */
  lemma RecoverOver(region: seq<byte>, slab: seq<Record>, n: nat, k: nat, rest: seq<byte>, left: seq<byte>)
    requires !TailLost(region) && RECORD_BYTES * k <= n <= RECORD_BYTES * |slab|
    requires left == EncodeAll(slab)[RECORD_BYTES * k..n] + rest
    ensures Recover(region + (EncodeAll(slab)[..n] + rest)) == Recover(region) + slab[..k] + Recover(left)
    ensures |region + (EncodeAll(slab)[..n] + rest)| == |region| + RECORD_BYTES * k + |left|
  {
    hide EncodeAll, Recover, TailLost;
    var data := EncodeAll(slab);
    EncodePrefix(slab, k);
    assert data[..n] + rest == data[..RECORD_BYTES * k] + left;
    RecoverEncoded(slab[..k], left);
    RecoverConcat(region, data[..n] + rest);
  }

  lemma RegionWhole(s: State, log: seq<Record>)
    requires OnDisk(s, log)
    ensures !TailLost(Region(s)) && Recover(Region(s)) == log && |Region(s)| == RECORD_BYTES * |log|
  {
    hide Recover;
  }

  // ----- Recovery

  /** Stop a flush anywhere, whatever was behind the committed records: replay finds the committed
      records, the slab records written whole, and whatever it accepts of the bytes behind them. */
  lemma StoppedFlush(s: State, log: seq<Record>, durable: bool, io: Io, f: seq<byte>)
    requires OnDisk(s, log) && f == Flush(s, durable, io).1.file
    ensures |f| >= HEADER_BYTES
    ensures Recover(f[HEADER_BYTES..]) == log + s.slab[..Whole(s, io)] + Recover(Left(s, io))
    ensures TailLost(f[HEADER_BYTES..]) <==> TailLost(Left(s, io))
  {
    hide Recover, EncodeAll, WriteSlab, WriteHeader, Left, Region, Tail;
    RegionWhole(s, log);
    SlabWritten(s, log, io);
    var (rc, s1) := WriteSlab(s, io);
    SameCondition(s, io);
    if rc == Ok && io.truncated {
      CutFlush(s, log, durable, io);
    } else {
      SlabOverTail(s, io);
      UncutLeft(s, io);
      var n := Attempted(s, io);
      RecoverOver(Region(s), s.slab, n, Whole(s, io), if n < |Tail(s)| then Tail(s)[n..] else [], Left(s, io));
    }
  }

  lemma SameCondition(s: State, io: Io)
    requires s.Open?
    ensures Cut(s, io) <==> !(s.slab != [] && io.dataBytes < RECORD_BYTES * |s.slab|) && io.truncated
  {
  }

  lemma UncutLeft(s: State, io: Io)
    requires s.Open? && DataEnd(s.committed) <= |s.file| && !Cut(s, io)
    ensures var n := Attempted(s, io);
            Left(s, io) == EncodeAll(s.slab)[RECORD_BYTES * (n / RECORD_BYTES)..n] + if n < |Tail(s)| then Tail(s)[n..] else []
  {
    hide EncodeAll, Tail;
  }

  lemma CutFlush(s: State, log: seq<Record>, durable: bool, io: Io)
    requires OnDisk(s, log) && Cut(s, io)
    ensures var f := Flush(s, durable, io).1.file;
            && |f| >= HEADER_BYTES && Recover(f[HEADER_BYTES..]) == log + s.slab[..Whole(s, io)] + Recover(Left(s, io))
            && !TailLost(f[HEADER_BYTES..]) && !TailLost(Left(s, io))
  {
    hide Recover, EncodeAll, WriteSlab, WriteHeader, Region, Tail;
    SlabWritten(s, log, io);
    SameCondition(s, io);
    var (rc, s1) := WriteSlab(s, io);
    Truncated(s1, log + s.slab);
    var s2 := s1.(file := Resize(s1.file, DataEnd(s1.committed)));
    HeaderWritten(s2, log + s.slab, io);
    WholeFile(s2, log + s.slab);
    RecoverNothing();
    assert s.slab[..Whole(s, io)] == s.slab;
    assert log + s.slab + [] == log + s.slab;
  }

  lemma RecoverNothing()
    ensures Recover([]) == [] && !TailLost([])
  {
  }

  /** The recovered log is exactly the committed records and the slab records written whole if and only
      if the 64 bytes behind them are missing or do not pass the check of a record. */
  lemma StoppedFlushExact(s: State, log: seq<Record>, durable: bool, io: Io, f: seq<byte>)
    requires OnDisk(s, log) && f == Flush(s, durable, io).1.file
    ensures |f| >= HEADER_BYTES
    ensures Recover(f[HEADER_BYTES..]) == log + s.slab[..Whole(s, io)] <==>
              |Left(s, io)| < RECORD_BYTES || !RecordOk(Left(s, io)[..RECORD_BYTES])
  {
    hide EncodeAll, Flush, Left, RecordOk, DecodeRecord, TailLost;
    StoppedFlush(s, log, durable, io, f);
    var found := log + s.slab[..Whole(s, io)];
    assert found + Recover(Left(s, io)) == found <==> Recover(Left(s, io)) == [] by {
      assert |found + Recover(Left(s, io))| == |found| + |Recover(Left(s, io))|;
      assert found + [] == found;
    }
  }

  /** It is the committed records and some beginning of the slab if and only if what replay accepts
      behind the whole records is again slab. */
  lemma StoppedFlushPrefix(s: State, log: seq<Record>, durable: bool, io: Io, f: seq<byte>)
    requires OnDisk(s, log) && f == Flush(s, durable, io).1.file
    ensures |f| >= HEADER_BYTES
    ensures (exists k :: 0 <= k <= |s.slab| && Recover(f[HEADER_BYTES..]) == log + s.slab[..k])
       <==> Recover(Left(s, io)) <= s.slab[Whole(s, io)..]
  {
    hide EncodeAll, Flush, Left, TailLost, Recover;
    StoppedFlush(s, log, durable, io, f);
    PrefixBehind(log, s.slab, Whole(s, io), Recover(Left(s, io)));
  }

  lemma PrefixBehind(log: seq<Record>, slab: seq<Record>, n: nat, more: seq<Record>)
    requires n <= |slab|
    ensures (exists k :: 0 <= k <= |slab| && log + slab[..n] + more == log + slab[..k]) <==> more <= slab[n..]
  {
    var all := log + slab[..n] + more;
    if k :| 0 <= k <= |slab| && all == log + slab[..k] {
      assert |all| == |log| + k && k == n + |more|;
      assert all[|log|..] == slab[..n] + more && (log + slab[..k])[|log|..] == slab[..k];
      assert more == slab[..k][n..] == slab[n..k];
    }
    if more <= slab[n..] {
      var k := n + |more|;
      assert slab[..k] == slab[..n] + more;
      assert all == log + slab[..k];
    }
  }

  /** Opening after a stop anywhere: it succeeds if and only if the header can be read. */
  lemma ReopenAfterStop(s: State, log: seq<Record>, durable: bool, io: Io, f: seq<byte>,
                        config: Config, nowNs: u64, io': Io, rc: Status, s': State)
    requires OnDisk(s, log) && ConfigValid(config)
    requires f == Flush(s, durable, io).1.file
    requires (rc, s') == Init(Closed(f), config, true, nowNs, io')
    ensures rc == Ok <==> HeaderGood(f)
    ensures rc == Ok ==>
      && OnDisk(s', log + s.slab[..Whole(s, io)] + Recover(Left(s, io)))
      && s'.model == Reopened(log + s.slab[..Whole(s, io)] + Recover(Left(s, io)))
      && s'.recoveredTail == TailLost(Left(s, io))
  {
    hide Recover, Flush, Init, Reopened, HeaderGood, Left, TailLost, EncodeAll;
    StoppedFlush(s, log, durable, io, f);
    ExistingFile(f, config, nowNs, io');
  }

  // ----- A run in which stale records return

  /** A record with its first byte changed. */
  function Damaged(r: Record): (s: seq<byte>)
    ensures |s| == RECORD_BYTES
  {
    EncodeRecord(r)[0 := EncodeRecord(r)[0] ^ 1]
  }

  lemma DamagedFails(r: Record)
    ensures !RecordOk(Damaged(r))
  {
    hide RecordOk, EncodeRecord;
    RecordRoundTrip(r);
    Flipped(EncodeRecord(r)[0]);
    assert Damaged(r)[0] != EncodeRecord(r)[0];
    RecordUnchanged(EncodeRecord(r), Damaged(r), 0);
  }

  lemma Flipped(b: byte)
    ensures b ^ 1 != b
  {
  }

  /** A file whose first record is damaged and whose second one is not. */
  function DamagedFile(h: Header, first: Record, stale: Record): seq<byte> {
    EncodeHeader(h) + Damaged(first) + EncodeRecord(stale)
  }

  /** The slab write of the flush goes through, and then everything stops. */
  const STOPPED: Io := Io(RECORD_BYTES, false, 0, false)

  function StaleRun(config: Config, input: Input): seq<Op> {
    [OpInit(config, true, 0, GOOD), OpSetMode(LEARN_SHADOW, GOOD), OpObserve(input, 0, GOOD), OpFlush(STOPPED)]
  }

  /** Opening a file with a damaged record, observing once, and stopping in the flush before the
      truncation: the record behind the damaged one, which opening did not find, is found again. */
  lemma StaleRecordsReturn(h: Header, first: Record, stale: Record, config: Config, input: Input, nowNs: u64, io: Io)
    requires ConfigValid(config) && -0x8000_0000 <= input.memoryDelta <= 0x7fff_ffff && CostInRange(input)
    ensures var s0 := Closed(DamagedFile(h, first, stale));
            var start, live := Run(s0, StaleRun(config, input)[..1]), Run(s0, StaleRun(config, input));
            var (rc, again) := Init(Closed(live.file), config, true, nowNs, io);
            && RunAdmissible(s0, StaleRun(config, input), true)
            && start.Open? && start.model == Reopened([]) && start.recoveredTail
            && live.Open? && live.committed == 1 && live.slab == []
            && rc == Ok && again.Open? && !again.recoveredTail
            && again.model == Reopened([RecordFor(Reopened([]), LEARN_SHADOW, input), stale])
            && again.committed == 2
  {
    hide Run, RunAdmissible, Init, Recover, RecordOk, EncodeRecord, EncodeHeader, HeaderStatus, Reopened, RecordFor, Observed,
         Flush, TailLost, Write, Resize, EncodeAll, Damaged;
    var file, r := DamagedFile(h, first, stale), RecordFor(Reopened([]), LEARN_SHADOW, input);
    var a, b, c, d := OpInit(config, true, 0, GOOD), OpSetMode(LEARN_SHADOW, GOOD), OpObserve(input, 0, GOOD), OpFlush(STOPPED);
    var s0 := Closed(file);
    OneMore(s0, [], a, true);
    OneMore(s0, [a], b, true);
    OneMore(s0, [a, b], c, true);
    OneMore(s0, [a, b, c], d, true);
    assert [] + [a] == [a] && [a] + [b] == [a, b] && [a, b] + [c] == [a, b, c] && [a, b, c] + [d] == [a, b, c, d];
    assert StaleRun(config, input)[..1] == [a];
    OpensDamaged(h, first, stale, config);
    FreshRange();
    var s3 := Run(s0, [a, b, c]);
    assert s3 == Run(s0, [a]).(mode := LEARN_SHADOW, header := s3.header, model := s3.model, slab := [r], latency := s3.latency);
    assert OnDisk(s3, []) by { SameDisk(Run(s0, [a]), s3, []); }
    assert s3.file[HEADER_BYTES..] == Damaged(first) + EncodeRecord(stale);
    StopsWithStale(s3, first, stale, r);
    assert [] + [r][..1] + [stale] == [r, stale];
    ReopenAfterStop(s3, [], true, STOPPED, Flush(s3, true, STOPPED).1.file, config, nowNs, io,
                    Init(Closed(Flush(s3, true, STOPPED).1.file), config, true, nowNs, io).0,
                    Init(Closed(Flush(s3, true, STOPPED).1.file), config, true, nowNs, io).1);
  }

  lemma FreshRange()
    ensures Reopened([]).tracked == 0 && Reopened([]).nextSequence == 1
  {
  }

  lemma OpensDamaged(h: Header, first: Record, stale: Record, config: Config)
    requires ConfigValid(config)
    ensures var (rc, s) := Init(Closed(DamagedFile(h, first, stale)), config, true, 0, GOOD);
            && rc == Ok && s.Open? && s.file == DamagedFile(h, first, stale) && OnDisk(s, []) && HeaderGood(s.file)
            && s.model == Reopened([]) && s.slab == [] && s.mode == OFF && s.recoveredTail
  {
    hide Recover, HeaderStatus, Reopened, TailLost, OnDisk, Init, DamagedFile;
    var file := DamagedFile(h, first, stale);
    DamagedParts(h, first, stale);
    ExistingFile(file, config, 0, GOOD);
    OpenMode(file, config);
  }

  lemma DamagedParts(h: Header, first: Record, stale: Record)
    ensures var f := DamagedFile(h, first, stale);
            f != [] && HeaderGood(f) && Recover(f[HEADER_BYTES..]) == [] && TailLost(f[HEADER_BYTES..])
  {
    hide Recover, RecordOk, EncodeRecord, EncodeHeader, HeaderStatus, TailLost, EncodeAll, Damaged;
    var file := DamagedFile(h, first, stale);
    HeaderRoundTrip(h);
    DamagedFails(first);
    assert file[..HEADER_BYTES] == EncodeHeader(h);
    assert file[HEADER_BYTES..] == Damaged(first) + EncodeRecord(stale);
    EncodeNothing();
    assert EncodeAll([]) + Damaged(first) + EncodeRecord(stale) == Damaged(first) + EncodeRecord(stale);
    BadRecordEndsLog([], Damaged(first), EncodeRecord(stale));
  }

  lemma OpenMode(file: seq<byte>, config: Config)
    requires file != []
    ensures var s := Init(Closed(file), config, true, 0, GOOD).1; s.Open? ==> s.mode == OFF
  {
    hide Recover, HeaderStatus, Reopened, TailLost, DecodeHeader;
  }

  lemma EncodeNothing()
    ensures EncodeAll([]) == []
  {
  }

  lemma StopsWithStale(s: State, first: Record, stale: Record, r: Record)
    requires OnDisk(s, []) && s.slab == [r] && HeaderGood(s.file)
    requires s.file[HEADER_BYTES..] == Damaged(first) + EncodeRecord(stale)
    ensures Whole(s, STOPPED) == 1 && Left(s, STOPPED) == EncodeRecord(stale)
    ensures Recover(Left(s, STOPPED)) == [stale] && !TailLost(Left(s, STOPPED))
    ensures var t := Flush(s, true, STOPPED).1; t.committed == 1 && t.slab == [] && HeaderGood(t.file)
  {
    hide Recover, RecordOk, EncodeRecord, Damaged, HeaderStatus;
    var data := EncodeAll(s.slab);
    assert Tail(s) == Damaged(first) + EncodeRecord(stale);
    assert Tail(s)[RECORD_BYTES..] == EncodeRecord(stale);
    OneRecord(stale);
    HeaderSurvives(s, [], true, STOPPED);
  }

  lemma OneRecord(r: Record)
    ensures Recover(EncodeRecord(r)) == [r] && !TailLost(EncodeRecord(r))
  {
    hide Recover, EncodeRecord;
    EncodeOne(r);
    RecoverPrefix([r], RECORD_BYTES);
    assert EncodeRecord(r)[..RECORD_BYTES] == EncodeRecord(r);
  }

  lemma EncodeOne(r: Record)
    ensures EncodeAll([r]) == EncodeRecord(r)
  {
    hide EncodeRecord;
    assert [r][1..] == [];
  }
}
