/** The runtime around the ring: starting, appending, checkpoints and their recovery. */
module HyperMemory {
  import opened Bytes
  import opened HyperMemorySpec

  // ----- Snapshots

  datatype Persisted = Persisted(sequence: int, timestamp: int, kind: Text, payload64: string, payloadBytes: int, sha: Digest)

  datatype Body = Body(
    schemaOk: bool, generation: int, createdAt: int, capacity: int, used: int, evictions: int, next: int, records: seq<Persisted>)

  datatype Snapshot = Snapshot(body: Body, integrity: Digest)

  /** What is stored under the checkpoint path; other content does not parse as a snapshot. */
  datatype File = Absent | Garbage | Stored(snapshot: Snapshot)

  /** SHA-256 of a payload and of a body in JSON, and base64, of which only the round trip is used. */
  datatype Codec = Codec(sha: seq<byte> -> Digest, seal: Body -> Digest, encode: seq<byte> -> string, decode: string -> seq<byte>)
  {
    ghost predicate Valid() {
      forall b :: decode(encode(b)) == b
    }
  }

  predicate Safe(n: int) {
    -MAX_SAFE <= n <= MAX_SAFE
  }

  predicate PersistedOk(c: Codec, p: Persisted, previous: int) {
    && Safe(p.sequence) && p.sequence > previous
    && Safe(p.payloadBytes) && p.payloadBytes >= 0
    && |c.decode(p.payload64)| == p.payloadBytes && c.sha(c.decode(p.payload64)) == p.sha
  }

  predicate AllOk(c: Codec, q: seq<Persisted>) {
    forall i :: 0 <= i < |q| ==> PersistedAt(c, q, i)
  }

  predicate PersistedAt(c: Codec, q: seq<Persisted>, i: nat)
    requires i < |q|
  {
    PersistedOk(c, q[i], if i == 0 then 0 else q[i - 1].sequence)
  }

  predicate Accepts(c: Codec, s: Snapshot) {
    && s.body.schemaOk && s.integrity == c.seal(s.body)
    && Safe(s.body.next) && s.body.next >= 1 && AllOk(c, s.body.records)
  }

  function Persist(c: Codec, r: Record): Persisted {
    Persisted(r.sequence, r.timestamp, r.kind, c.encode(r.payload), |r.payload|, r.sha)
  }

  function PersistAll(c: Codec, q: seq<Record>): (p: seq<Persisted>)
    ensures |p| == |q|
  {
    seq(|q|, i requires 0 <= i < |q| => Persist(c, q[i]))
  }

  function Revive(c: Codec, p: Persisted): Record {
    Record(p.sequence, p.timestamp, p.kind, c.decode(p.payload64), p.sha)
  }

  function ReviveAll(c: Codec, q: seq<Persisted>): (r: seq<Record>)
    ensures |r| == |q|
  {
    seq(|q|, i requires 0 <= i < |q| => Revive(c, q[i]))
  }

  lemma ReviveUndoesPersist(c: Codec, q: seq<Record>)
    requires c.Valid()
    ensures ReviveAll(c, PersistAll(c, q)) == q
  {
  }

  /** The payload digests are those of the payloads. */
  predicate Digested(c: Codec, q: seq<Record>) {
    forall r :: r in q ==> r.sha == c.sha(r.payload) && Safe(|r.payload|)
  }

  function SnapshotOf(c: Codec, ring: Ring, generation: int, createdAt: int, capacity: int): Snapshot {
    var body := Body(true, generation, createdAt, capacity, Total(ring.records), ring.evictions, ring.next, PersistAll(c, ring.records));
    Snapshot(body, c.seal(body))
  }

  /** Recovery accepts every snapshot that a checkpoint writes, as long as the numbering has not left
      the safe integers. */
  lemma WrittenIsAccepted(c: Codec, ring: Ring, history: seq<Record>, generation: int, createdAt: int, capacity: nat)
    requires c.Valid() && Sound(ring, history, capacity) && Digested(c, ring.records)
    ensures Accepts(c, SnapshotOf(c, ring, generation, createdAt, capacity)) <==> ring.next <= MAX_SAFE
  {
    hide Total, Fit, AllOk;
    SuffixContiguous(history, |history| - |ring.records|, ring.next);
    if ring.next <= MAX_SAFE {
      PersistedAllOk(c, ring.records, ring.next);
    }
  }

  lemma PersistedAllOk(c: Codec, q: seq<Record>, next: int)
    requires c.Valid() && Contiguous(q, next) && |q| < next <= MAX_SAFE && Digested(c, q)
    ensures AllOk(c, PersistAll(c, q))
  {
    var p := PersistAll(c, q);
    forall i | 0 <= i < |p| ensures PersistedAt(c, p, i) {
      assert p[i] == Persist(c, q[i]) && q[i] in q;
      if i > 0 {
        assert p[i - 1] == Persist(c, q[i - 1]);
      }
    }
  }

  /** Among the contents of `bodies` no two have the same digest. */
  ghost predicate Distinct(c: Codec, bodies: set<Body>) {
    forall a, b :: a in bodies && b in bodies && c.seal(a) == c.seal(b) ==> a == b
  }

  /** Under the digest of an accepted snapshot no other content is accepted, unless digests collide. */
  lemma AlteredIsRefused(c: Codec, written: Snapshot, altered: Snapshot, bodies: set<Body>)
    requires Accepts(c, written) && altered.integrity == written.integrity
    requires Distinct(c, bodies) && written.body in bodies && altered.body in bodies
    ensures Accepts(c, altered) <==> altered == written
  {
    hide AllOk;
    if Accepts(c, altered) {
      assert c.seal(altered.body) == c.seal(written.body);
    }
  }

  /** Even with a new digest for the whole content, a record with another payload is accepted exactly
      when the payload has the length and the digest that the record states. */
  lemma AlteredPayload(c: Codec, written: Snapshot, i: nat, text: string)
    requires Accepts(c, written) && i < |written.body.records|
    ensures var was := written.body.records[i];
            var body := written.body.(records := written.body.records[i := was.(payload64 := text)]);
            Accepts(c, Snapshot(body, c.seal(body))) <==> |c.decode(text)| == was.payloadBytes && c.sha(c.decode(text)) == was.sha
  {
    hide PersistedOk;
    var q := written.body.records;
    var r := q[i := q[i].(payload64 := text)];
    assert PersistedAt(c, q, i);
    PayloadDecides(c, q[i], text, if i == 0 then 0 else q[i - 1].sequence);
    if PersistedAt(c, r, i) {
      forall k | 0 <= k < |r| ensures PersistedAt(c, r, k) {
        assert PersistedAt(c, q, k);
      }
    }
  }

  lemma PayloadDecides(c: Codec, p: Persisted, text: string, previous: int)
    requires PersistedOk(c, p, previous)
    ensures PersistedOk(c, p.(payload64 := text), previous) <==> |c.decode(text)| == p.payloadBytes && c.sha(c.decode(text)) == p.sha
  {
  }

  /** Bytes as characters are a round trip. */
  function Plain(): Codec {
    Codec((b: seq<byte>) => "", (b: Body) => "",
          (b: seq<byte>) => seq(|b|, i requires 0 <= i < |b| => (b[i] as int) as char),
          (s: string) => seq(|s|, i requires 0 <= i < |s| => if s[i] as int < 256 then ByteOf(s[i] as int) else 0))
  }

  lemma PlainValid()
    ensures Plain().Valid()
  {
    hide ByteOf;
    forall b: seq<byte> ensures Plain().decode(Plain().encode(b)) == b {
      forall i | 0 <= i < |b| ensures Plain().decode(Plain().encode(b))[i] == b[i] {
        ByteOfInverse(b[i]);
      }
    }
  }

  /** Writing a checkpoint and restoring it, under the same or another capacity: the snapshot is
      accepted, the ring is the longest suffix of the history that fits both capacities, and under the
      same capacity nothing changes at all. */
  lemma CheckpointRoundTrip(c: Codec, ring: Ring, history: seq<Record>, generation: int, createdAt: int, capacity: nat, newCapacity: nat)
    requires c.Valid() && Sound(ring, history, capacity) && Digested(c, ring.records) && ring.next <= MAX_SAFE
    ensures var s := SnapshotOf(c, ring, generation, createdAt, capacity);
            var restored := PushedAll(Ring([], s.body.evictions, s.body.next), ReviveAll(c, s.body.records), newCapacity);
            && Accepts(c, s)
            && restored.records == Fit(history, if capacity <= newCapacity then capacity else newCapacity)
            && Contiguous(restored.records, restored.next) && restored.next == ring.next
            && (newCapacity == capacity ==> restored == ring)
  {
    hide Fit, PushedAll, Accepts, Contiguous;
    WrittenIsAccepted(c, ring, history, generation, createdAt, capacity);
    ReviveUndoesPersist(c, ring.records);
    RestoreContents(ring, history, capacity, newCapacity);
  }

  /** What is restored from consecutive records can be appended to again. */
  lemma RestoredIsValid(c: Codec, q: seq<Record>, evictions: int, next: int, capacity: nat)
    requires Contiguous(q, next) && Digested(c, q)
    ensures var r := PushedAll(Ring([], evictions, next), q, capacity).records;
            r == Fit(r, capacity) && Contiguous(r, next) && Digested(c, r)
    ensures PushedAll(Ring([], evictions, next), q, capacity).next == next
  {
    hide PushedAll;
    RestoreIsFit(evictions, next, q, capacity);
    SuffixContiguous(q, |q| - |Fit(q, capacity)|, next);
  }

  lemma NumberedNext(c: Codec, ring: Ring, history: seq<Record>, r: Record, capacity: nat)
    requires ring.records == Fit(history, capacity) && Contiguous(history, ring.next) && Digested(c, history)
    requires r.sequence == ring.next && Frame(r) <= capacity && Digested(c, [r])
    ensures Pushed(ring, r, capacity).records == Fit(history + [r], capacity)
    ensures Contiguous(history + [r], ring.next + 1) && Digested(c, history + [r])
  {
    hide Fit, Frame, Contiguous, Digested, Pushed;
    PushedFits(ring, history, r, capacity);
    NextContiguous(history, r, ring.next);
    NextDigested(c, history, r);
  }

  lemma NextDigested(c: Codec, q: seq<Record>, r: Record)
    requires Digested(c, q) && Digested(c, [r])
    ensures Digested(c, q + [r])
  {
    assert r in [r];
  }

  // ----- The runtime

  datatype Recovery = Fresh | Restored | QuarantinedCorrupt | Disabled

  datatype Append = Accepted(sequence: int) | ErrDisabled | ErrStopped | ErrKind | ErrTooLarge

  function AppendStatus(enabled: bool, running: bool, kind: Text, payloadBytes: nat, capacity: nat, next: int): Append {
    if !enabled then ErrDisabled
    else if !running then ErrStopped
    else if !(1 <= |Trim(kind)| <= 128) then ErrKind
    else if FrameSize(Trim(kind), payloadBytes) > capacity then ErrTooLarge
    else Accepted(next)
  }

  predicate White(u: u16) {
    9 <= u <= 13 || u in {32, 0xa0, 0x1680, 0x2028, 0x2029, 0x202f, 0x205f, 0x3000, 0xfeff} || 0x2000 <= u <= 0x200a
  }

  function TrimStart(s: Text): Text {
    if s != [] && White(s[0]) then TrimStart(s[1..]) else s
  }

  function TrimEnd(s: Text): Text
    decreases |s|
  {
    if s != [] && White(s[|s| - 1]) then TrimEnd(s[..|s| - 1]) else s
  }

  function Trim(s: Text): Text {
    TrimEnd(TrimStart(s))
  }

  predicate Refused(c: Codec, file: File) {
    file.Garbage? || (file.Stored? && !Accepts(c, file.snapshot))
  }

  /** Everything about the runtime except the ring. */
  datatype Life = Life(generation: int, running: bool, recovery: Recovery, file: File, quarantined: seq<File>)

  class Runtime {
    const c: Codec
    const enabled: bool
    const capacity: nat
    var records: seq<Record>
    var usedBytes: int
    var evictions: int
    var nextSequence: int
    var life: Life
    ghost var history: seq<Record>

    ghost function Value(): Ring
      reads this`records, this`evictions, this`nextSequence
    {
      Ring(records, evictions, nextSequence)
    }

    ghost predicate Valid()
      reads this`records, this`usedBytes, this`nextSequence, this`history
    {
      && c.Valid() && 256 <= capacity <= MAX_SAFE
      && usedBytes == Total(records) && records == Fit(history, capacity)
      && Contiguous(history, nextSequence) && Digested(c, history)
    }

    constructor (c: Codec, enabled: bool, capacity: nat, file: File)
      requires c.Valid() && 256 <= capacity <= MAX_SAFE
      ensures Valid() && Sound(Value(), history, capacity)
      ensures this.c == c && this.enabled == enabled && this.capacity == capacity && life == Life(1, false, Fresh, file, [])
    {
      this.c, this.enabled, this.capacity, life := c, enabled, capacity, Life(1, false, Fresh, file, []);
      records, usedBytes, evictions, nextSequence, history := [], 0, 0, 1, [];
    }

    /** Evicts from the old end until `need` more bytes fit, or nothing is left. */
    method MakeRoom(need: nat)
      requires usedBytes == Total(records)
      modifies this`records, this`usedBytes, this`evictions
      ensures records == Evict(old(records), need, capacity) && usedBytes == Total(records)
      ensures evictions == old(evictions) + |old(records)| - |records|
    {
      while |records| > 0 && usedBytes + need > capacity
        invariant usedBytes == Total(records)
        invariant Evict(records, need, capacity) == Evict(old(records), need, capacity)
        invariant evictions + |records| == old(evictions) + |old(records)|
        decreases |records|
      {
        usedBytes := usedBytes - Frame(records[0]);
        records := records[1..];
        evictions := evictions + 1;
      }
    }

    /** Makes room for a record and pushes it, if it fits at all. */
    method Push(record: Record)
      requires usedBytes == Total(records)
      modifies this`records, this`usedBytes, this`evictions
      ensures usedBytes == Total(records) && Value() == Pushed(old(Value()), record, capacity)
    {
      hide Evict, Total;
      MakeRoom(Frame(record));
      if Frame(record) <= capacity {
        TotalConcat(records, [record]);
        TotalOne(record);
        records := records + [record];
        usedBytes := usedBytes + Frame(record);
      }
    }

    method Append(kind: Text, payload: seq<byte>, now: int) returns (r: Append)
      requires Valid()
      modifies this`records, this`usedBytes, this`evictions, this`nextSequence, this`history
      ensures Valid()
      ensures r == AppendStatus(enabled, life.running, kind, |payload|, capacity, old(nextSequence))
      ensures r.Accepted? ==> Value() == Appended(old(Value()), now, Trim(kind), payload, c.sha(payload), capacity)
      ensures r.Accepted? ==> history == old(history) + [Record(old(nextSequence), now, Trim(kind), payload, c.sha(payload))]
      ensures !r.Accepted? ==> Value() == old(Value()) && history == old(history)
    {
      hide Fit, Pushed, Utf8Length, Trim, Total;
      if !enabled {
        return ErrDisabled;
      }
      if !life.running {
        return ErrStopped;
      }
      var normalized := Trim(kind);
      if |normalized| == 0 || |normalized| > 128 {
        return ErrKind;
      }
      if FrameSize(normalized, |payload|) > capacity {
        return ErrTooLarge;
      }
      r := Accepted(nextSequence);
      assert Safe(|payload|);
      Number(Record(nextSequence, now, normalized, payload, c.sha(payload)));
    }

    /** Pushes a record that fits under the next sequence number. */
    method Number(record: Record)
      requires Valid() && record.sequence == nextSequence && Frame(record) <= capacity && Digested(c, [record])
      modifies this`records, this`usedBytes, this`evictions, this`nextSequence, this`history
      ensures Valid() && history == old(history) + [record]
      ensures Value() == Pushed(old(Value()), record, capacity).(next := old(nextSequence) + 1)
    {
      hide Fit, Pushed, Frame, Total, Contiguous, Digested;
      NumberedNext(c, Value(), history, record, capacity);
      Push(record);
      nextSequence := nextSequence + 1;
      history := history + [record];
    }

    /** Writes the snapshot to a temporary file and renames it; if that is interrupted the old
        checkpoint is still there. */
    method Checkpoint(now: int, completed: bool)
      requires Valid()
      modifies this`life
      ensures life == if enabled && old(life.running) && completed
                      then old(life).(file := Stored(SnapshotOf(c, Value(), old(life.generation), now, capacity))) else old(life)
    {
      if !enabled || !life.running {
        return;
      }
      var body := Body(true, life.generation, now, capacity, usedBytes, evictions, nextSequence, PersistAll(c, records));
      var snapshot := Snapshot(body, c.seal(body));
      if completed {
        life := life.(file := Stored(snapshot));
      }
    }

    /** The checks on a parsed snapshot, in one pass over its records. */
    method Validate(s: Snapshot) returns (ok: bool)
      ensures ok <==> Accepts(c, s)
    {
      if !s.body.schemaOk || s.integrity != c.seal(s.body) || !Safe(s.body.next) || s.body.next < 1 {
        return false;
      }
      var previous := 0;
      for i := 0 to |s.body.records|
        invariant previous == if i == 0 then 0 else s.body.records[i - 1].sequence
        invariant forall k :: 0 <= k < i ==> PersistedAt(c, s.body.records, k)
      {
        var record := s.body.records[i];
        if !PersistedOk(c, record, previous) {
          assert !PersistedAt(c, s.body.records, i);
          return false;
        }
        previous := record.sequence;
      }
      ok := true;
    }

    method Load(s: Snapshot)
      modifies this`records, this`usedBytes, this`evictions, this`nextSequence
      ensures usedBytes == Total(records)
      ensures Value() == PushedAll(Ring([], s.body.evictions, s.body.next), ReviveAll(c, s.body.records), capacity)
      ensures Contiguous(ReviveAll(c, s.body.records), s.body.next) && Digested(c, ReviveAll(c, s.body.records)) ==>
                records == Fit(records, capacity) && Contiguous(records, nextSequence) && Digested(c, records)
    {
      hide Evict, Fit, Contiguous, Digested;
      records, usedBytes, evictions, nextSequence := [], 0, s.body.evictions, s.body.next;
      ghost var all := ReviveAll(c, s.body.records);
      for i := 0 to |s.body.records|
        invariant usedBytes == Total(records)
        invariant Value() == PushedAll(Ring([], s.body.evictions, s.body.next), all[..i], capacity)
      {
        assert all[..i + 1][..i] == all[..i];
        Push(Revive(c, s.body.records[i]));
      }
      assert all[..|all|] == all;
      if Contiguous(all, s.body.next) && Digested(c, all) {
        RestoredIsValid(c, all, s.body.evictions, s.body.next, capacity);
      }
    }

    /** The checkpoint is restored, or put aside if it is not accepted. */
    method RestoreCheckpoint()
      requires Valid()
      modifies this
      ensures old(life.file).Stored? && Accepts(c, old(life.file).snapshot) ==>
                var s := old(life.file).snapshot;
                && usedBytes == Total(records)
                && Value() == PushedAll(Ring([], s.body.evictions, s.body.next), ReviveAll(c, s.body.records), capacity)
                && life == old(life).(generation := s.body.generation + 1, recovery := Restored)
                && (Contiguous(ReviveAll(c, s.body.records), s.body.next) && Digested(c, ReviveAll(c, s.body.records)) ==> Valid())
      ensures Refused(c, old(life.file)) ==>
                && Valid() && Value() == Ring([], 0, 1) && history == []
                && life == Life(1, old(life.running), QuarantinedCorrupt, Absent, old(life.quarantined) + [old(life.file)])
      ensures old(life.file).Absent? ==>
                Valid() && Value() == old(Value()) && history == old(history) && life == old(life).(recovery := Fresh)
    {
      hide Total, Fit, PushedAll, ReviveAll, Contiguous, Digested, Accepts;
      if life.file.Absent? {
        life := life.(recovery := Fresh);
        return;
      }
      if life.file.Garbage? {
        Quarantine();
        return;
      }
      var s := life.file.snapshot;
      var ok := Validate(s);
      if !ok {
        Quarantine();
        return;
      }
      Load(s);
      life := life.(generation := s.body.generation + 1, recovery := Restored);
      history := records;
    }

    /** A disabled runtime never starts, and a running one is left alone. */
    method Start()
      requires Valid()
      modifies this
      ensures old(life.running) ==> Value() == old(Value()) && life == old(life)
      ensures !old(life.running) && !enabled ==> Value() == old(Value()) && life == old(life).(recovery := Disabled)
      ensures !old(life.running) && enabled && old(life.file).Absent? ==>
                && Valid() && Value() == old(Value()) && history == old(history)
                && life == old(life).(running := true, recovery := Fresh)
      ensures !old(life.running) && enabled && Refused(c, old(life.file)) ==>
                && Valid() && Value() == Ring([], 0, 1) && history == []
                && life == Life(1, true, QuarantinedCorrupt, Absent, old(life.quarantined) + [old(life.file)])
      ensures !old(life.running) && enabled && old(life.file).Stored? && Accepts(c, old(life.file).snapshot) ==>
                var s := old(life.file).snapshot;
                && Value() == PushedAll(Ring([], s.body.evictions, s.body.next), ReviveAll(c, s.body.records), capacity)
                && life == old(life).(generation := s.body.generation + 1, running := true, recovery := Restored)
                && (Contiguous(ReviveAll(c, s.body.records), s.body.next) && Digested(c, ReviveAll(c, s.body.records)) ==> Valid())
    {
      hide Valid, PushedAll, ReviveAll, Contiguous, Digested, Accepts, Refused;
      if life.running {
        return;
      }
      if !enabled {
        life := life.(recovery := Disabled);
        return;
      }
      RestoreCheckpoint();
      life := life.(running := true);
    }

    method Quarantine()
      requires c.Valid() && 256 <= capacity <= MAX_SAFE
      modifies this
      ensures Valid() && Value() == Ring([], 0, 1) && history == []
      ensures life == Life(1, old(life.running), QuarantinedCorrupt, Absent, old(life.quarantined) + [old(life.file)])
    {
      hide Accepts;
      life := life.(file := Absent, quarantined := life.quarantined + [life.file]);
      records, usedBytes, evictions, nextSequence, history := [], 0, 0, 1, [];
      life := life.(generation := 1, recovery := QuarantinedCorrupt);
    }
  }
}
