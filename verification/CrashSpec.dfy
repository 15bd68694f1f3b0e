/** The crash observer: which events it takes, and what any run of events, drains and resets keeps. */
module CrashSpec {
  import opened Arith
  import opened Bytes
  import opened RecordChain
  import opened RecordRing

  datatype Input = Input(
    ns: u64, packageTag: u64, processTag: u64, correlation: u64, pc: u64, sp: u64, faultAddress: u64,
    pid: u32, tid: u32, uid: u32, status: u32, reason: u32, flags: bv32, kind: u16)

  datatype Record = Record(
    ns: u64, packageTag: u64, processTag: u64, correlation: u64, pc: u64, sp: u64, faultAddress: u64, chain: u64,
    pid: u32, tid: u32, uid: u32, status: u32, reason: u32, flags: bv32, kind: u16, schemaVersion: u16)

  datatype Totals = Totals(chain: u64, lastNs: u64, observed: u32, rejected: u32)

  datatype State = State(t: Totals, queue: seq<Record>)

  const CAPACITY: nat := 128

  // ----- One event

  predicate KindValid(kind: u16) {
    1 <= kind <= 9
  }

  function Triggered(flags: bv32): bv32 {
    flags | 0x8000_0000
  }

  function Word(x: bv32): u32 {
    Word32(x);
    x as int
  }

  /** The widths of the fields, and of the padding behind them. */
  const WIDTHS: seq<nat> := [8, 8, 8, 8, 8, 8, 8, 4, 4, 4, 4, 4, 4, 2, 2, 4]

  /** Every byte of a record except its own link; the padding is zero. */
  function Content(r: Record): seq<byte> {
    Pack(Values(r), WIDTHS)
  }

  function Values(r: Record): (v: seq<nat>)
    ensures |v| == 16
  {
    [r.ns, r.packageTag, r.processTag, r.correlation, r.pc, r.sp, r.faultAddress,
     r.pid, r.tid, r.uid, r.status, r.reason, Word(r.flags), r.kind, r.schemaVersion, 0]
  }

  /** The link covers every field of a record. */
  lemma ContentDetermines(r: Record, q: Record)
    requires Content(r) == Content(q) && r.chain == q.chain
    ensures r == q
  {
    hide Pack, Width, Pow256, Fits;
    var v, w := Values(r), Values(q);
    ValuesFit(r);
    ValuesFit(q);
    UnpackPack(v, WIDTHS);
    UnpackPack(w, WIDTHS);
    Word32(r.flags);
    Word32(q.flags);
    assert v[0] == w[0] && v[1] == w[1] && v[2] == w[2] && v[3] == w[3] && v[4] == w[4] && v[5] == w[5] && v[6] == w[6];
    assert v[7] == w[7] && v[8] == w[8] && v[9] == w[9] && v[10] == w[10] && v[11] == w[11];
    assert v[12] == w[12] && v[13] == w[13] && v[14] == w[14];
  }

  lemma ValuesFit(r: Record)
    ensures Fits(Values(r), WIDTHS)
  {
    hide Pow256;
    Pow256Values();
  }

  function RecordLayout(): Layout<Record> {
    Layout((r: Record) => r.chain, (r: Record) => Content(r))
  }

  function Draft(input: Input): Record {
    Record(input.ns, input.packageTag, input.processTag, input.correlation, input.pc, input.sp, input.faultAddress, 0,
           input.pid, input.tid, input.uid, input.status, input.reason, Triggered(input.flags), input.kind, 1)
  }

  function NewRecord(chain: u64, input: Input): (r: Record)
    ensures r.chain == Link(chain, Content(r)) && r.ns == input.ns
  {
    hide Link, Pack;
    Draft(input).(chain := Link(chain, Content(Draft(input))))
  }

  function EventStatus(t: Totals, input: Input): int {
    if !KindValid(input.kind) then -2
    else if input.ns == 0 || (t.lastNs != 0 && input.ns < t.lastNs) then -3
    else 0
  }

  function Totalled(t: Totals, input: Input): Totals {
    if EventStatus(t, input) != 0 then t.(rejected := (t.rejected + 1) % U32)
    else t.(chain := NewRecord(t.chain, input).chain, lastNs := input.ns, observed := (t.observed + 1) % U32)
  }

  // ----- Runs

  datatype Op = Event(input: Input) | Take(room: nat) | Reset

  function Step(s: State, op: Op): State {
    match op
    case Event(input) =>
      State(Totalled(s.t, input),
            if EventStatus(s.t, input) == 0 then Committed(s.queue, NewRecord(s.t.chain, input), CAPACITY) else s.queue)
    case Take(room) => State(s.t, Apply(s.queue, Drain(room), CAPACITY))
    case Reset => State(s.t.(lastNs := 0), [])
  }

  function Run(ops: seq<Op>): State
    decreases |ops|
  {
    if ops == [] then State(Totals(0, 0, 0, 0), []) else Step(Run(ops[..|ops| - 1]), ops[|ops| - 1])
  }

  /** The records that an operation adds. */
  function Added(s: State, op: Op): seq<Record> {
    match op
    case Event(input) => if EventStatus(s.t, input) == 0 then [NewRecord(s.t.chain, input)] else []
    case _ => []
  }

  /** Everything recorded, over all epochs. */
  function History(ops: seq<Op>): seq<Record>
    decreases |ops|
  {
    if ops == [] then [] else History(ops[..|ops| - 1]) + Added(Run(ops[..|ops| - 1]), ops[|ops| - 1])
  }

  /** What was recorded since the newest reset. */
  function Epoch(ops: seq<Op>): seq<Record>
    decreases |ops|
  {
    if ops == [] || ops[|ops| - 1] == Reset then []
    else Epoch(ops[..|ops| - 1]) + Added(Run(ops[..|ops| - 1]), ops[|ops| - 1])
  }

  function Rejections(ops: seq<Op>): nat
    decreases |ops|
  {
    if ops == [] then 0
    else
      var last, front := ops[|ops| - 1], ops[..|ops| - 1];
      Rejections(front) + if last.Event? && EventStatus(Run(front).t, last.input) != 0 then 1 else 0
  }

  /** A rejected event changes nothing but the count of rejections. */
  lemma RejectionOnlyCounts(s: State, input: Input)
    requires EventStatus(s.t, input) != 0
    ensures Step(s, Event(input)) == s.(t := s.t.(rejected := (s.t.rejected + 1) % U32))
    ensures Step(s, Event(input)).t.rejected != s.t.rejected
  {
    hide NewRecord, Committed;
  }

  predicate Sorted(q: seq<Record>) {
    forall i, j :: 0 <= i < j < |q| ==> q[i].ns <= q[j].ns
  }

  /** What an epoch has recorded after one more operation. */
  function EpochNext(s: State, q: seq<Record>, op: Op): seq<Record> {
    if op == Reset then [] else q + Added(s, op)
  }

  predicate Timely(q: seq<Record>, newest: u64) {
    Sorted(q) && (forall r :: r in q ==> 0 < r.ns <= newest) && (q == [] ==> newest == 0)
  }

  lemma TimelyGrow(q: seq<Record>, newest: u64, r: Record)
    requires Timely(q, newest) && 0 < r.ns && newest <= r.ns
    ensures Timely(q + [r], r.ns)
  {
    forall i, j | 0 <= i < j < |q + [r]| ensures (q + [r])[i].ns <= (q + [r])[j].ns {
      assert (q + [r])[i] in q;
    }
  }

  lemma TimelyStep(s: State, q: seq<Record>, op: Op)
    requires Timely(q, s.t.lastNs)
    ensures Timely(EpochNext(s, q, op), Step(s, op).t.lastNs)
  {
    hide Timely, NewRecord, Committed, Apply;
    match op
    case Event(input) =>
      if EventStatus(s.t, input) == 0 {
        TimelyGrow(q, s.t.lastNs, NewRecord(s.t.chain, input));
      } else {
        assert q + [] == q;
      }
    case Take(_) => assert q + [] == q;
    case Reset => NothingTimely();
  }

  /** Within one epoch the timestamps never go back and never pass the newest one. */
  lemma {:induction false} EpochSorted(ops: seq<Op>)
    ensures Timely(Epoch(ops), Run(ops).t.lastNs)
    decreases |ops|
  {
    hide Timely, Step, Added;
    if ops == [] {
      NothingTimely();
    } else {
      var front, last := ops[..|ops| - 1], ops[|ops| - 1];
      EpochSorted(front);
      TimelyStep(Run(front), Epoch(front), last);
    }
  }

  lemma NothingTimely()
    ensures Timely([], 0)
  {
  }

  ghost predicate Recent<T>(queue: seq<T>, q: seq<T>) {
    |queue| <= CAPACITY && |queue| <= |q| && queue == q[|q| - |queue|..]
  }

  lemma RecentGrow<T>(queue: seq<T>, q: seq<T>, x: T)
    requires Recent(queue, q)
    ensures Recent(Committed(queue, x, CAPACITY), q + [x])
  {
    assert queue + [x] == (q + [x])[|q| - |queue|..];
  }

  lemma RecentShrink<T>(queue: seq<T>, q: seq<T>, room: nat)
    requires Recent(queue, q)
    ensures Recent(Apply(queue, Drain(room), CAPACITY), q)
  {
    assert queue[Taken(queue, room)..] == q[|q| - |queue|..][Taken(queue, room)..];
  }

  lemma RecentStep(s: State, q: seq<Record>, op: Op)
    requires Recent(s.queue, q)
    ensures Recent(Step(s, op).queue, EpochNext(s, q, op))
  {
    hide Recent, NewRecord, Totalled, EventStatus, Committed, Apply;
    match op
    case Event(input) =>
      if EventStatus(s.t, input) == 0 {
        RecentGrow(s.queue, q, NewRecord(s.t.chain, input));
      } else {
        assert q + [] == q;
      }
    case Take(room) =>
      RecentShrink(s.queue, q, room);
      assert q + [] == q;
    case Reset => NothingRecent<Record>();
  }

  lemma NothingRecent<T>()
    ensures Recent<T>([], [])
  {
  }

  /** The queue holds the newest records of the epoch, at most 128 of them. */
  lemma {:induction false} QueueIsRecent(ops: seq<Op>)
    ensures Recent(Run(ops).queue, Epoch(ops))
    decreases |ops|
  {
    hide Recent, Step, Added;
    if ops == [] {
      NothingRecent<Record>();
    } else {
      var front, last := ops[..|ops| - 1], ops[|ops| - 1];
      QueueIsRecent(front);
      RecentStep(Run(front), Epoch(front), last);
    }
  }

  /** An operation adds linked records and moves the tip of the chain to the newest of them. */
  lemma ChainStep(s: State, op: Op)
    ensures Linked(RecordLayout(), s.t.chain, Added(s, op))
    ensures Step(s, op).t.chain == Tip(RecordLayout(), s.t.chain, Added(s, op))
    ensures Step(s, op).t.observed == (s.t.observed + |Added(s, op)|) % U32
    ensures Step(s, op).t.rejected == (s.t.rejected + if op.Event? && EventStatus(s.t, op.input) != 0 then 1 else 0) % U32
  {
    hide Link, Content, Committed, Apply, KindValid;
  }

  /** The chain runs through all epochs, drains and rejections; the counters are exact in 32 bits. */
  lemma {:induction false} ChainSurvives(ops: seq<Op>)
    ensures Linked(RecordLayout(), 0, History(ops))
    ensures Run(ops).t.chain == Tip(RecordLayout(), 0, History(ops))
    ensures Run(ops).t.observed == |History(ops)| % U32
    ensures Run(ops).t.rejected == Rejections(ops) % U32
    decreases |ops|
  {
    hide Link, Linked, Added, Step, EventStatus;
    if ops == [] {
      NothingLinked();
    } else {
      var front, last := ops[..|ops| - 1], ops[|ops| - 1];
      ChainSurvives(front);
      ChainStep(Run(front), last);
      LinkedConcat(RecordLayout(), 0, History(front), Added(Run(front), last));
      SumWraps(|History(front)|, |Added(Run(front), last)|, U32);
      SumWraps(Rejections(front), 1, U32);
    }
  }

  lemma NothingLinked()
    ensures Linked(RecordLayout(), 0, [])
  {
  }

  lemma StepKeepsLinks(s: State, op: Op)
    requires LinkedQueue(RecordLayout(), s.queue, s.t.chain)
    ensures LinkedQueue(RecordLayout(), Step(s, op).queue, Step(s, op).t.chain)
  {
    hide Link, Content, Committed, Apply, LinkedQueue;
    match op
    case Event(input) =>
      if EventStatus(s.t, input) == 0 {
        CommitKeepsLinks(RecordLayout(), s.queue, NewRecord(s.t.chain, input), s.t.chain, CAPACITY);
      }
    case Take(room) => DrainKeepsLinks(RecordLayout(), s.queue, room, s.t.chain, CAPACITY);
    case Reset => NothingQueued(s.t.chain);
  }

  lemma NothingQueued(tip: u64)
    ensures LinkedQueue(RecordLayout(), [], tip)
  {
  }
}
