/** The latencies that a store reports, over whole runs. */
module LatencyRuns {
  import opened RflFormat
  import opened LearningModel
  import opened StoreSpec
  import opened Latency

  /** An observation that is stored and whose end is not before its start is timed. */
  function Timed(s: State, op: Op): (timed: seq<nat>)
    ensures |timed| <= 1
  {
    match op
    case OpObserve(input, endedNs, _) =>
      if Accepts(s) && |s.slab| < SLAB_RECORDS && endedNs >= input.startedNs then [endedNs - input.startedNs] else []
    case _ => []
  }

  /** Opening, closing and an accepted reset begin anew. */
  predicate Restarts(s: State, op: Op) {
    match op
    case OpInit(_, _, _, _) => s.Closed?
    case OpReset => s.Open? && !Accepts(s)
    case OpClose(_, _) => true
    case _ => false
  }

  /** The latencies of a run since they were last reset. */
  function Since(s: State, ops: seq<Op>): seq<nat>
    decreases |ops|
  {
    if ops == [] then []
    else
      var before, last := ops[..|ops| - 1], ops[|ops| - 1];
      if Restarts(Run(s, before), last) then [] else Since(s, before) + Timed(Run(s, before), last)
  }

  lemma FlushKeepsLatency(s: State, durable: bool, io: Io)
    requires s.Open?
    ensures Flush(s, durable, io).1.latency == s.latency
  {
    hide EncodeAll, EncodeHeader, Write, Resize;
  }

  /** One operation on the ring of an open store. */
  lemma StepLatency(s: State, op: Op)
    requires Step(s, op).1.Open?
    ensures Restarts(s, op) ==> Emptied(Step(s, op).1.latency)
    ensures !Restarts(s, op) ==>
              s.Open? && Step(s, op).1.latency == if Timed(s, op) == [] then s.latency else Push(s.latency, Timed(s, op)[0])
  {
    hide Flush, Write, Resize, EncodeHeader, HeaderStatus, Recover, Reopened, Trained, Observed, RecordFor, Push;
    match op
    case OpSetMode(mode, io) => if s.Open? { FlushKeepsLatency(s, true, io); }
    case OpObserve(input, endedNs, io) => if Accepts(s) { ObserveLatency(s, input, endedNs, io); }
    case OpFlush(io) => if s.Open? { FlushKeepsLatency(s, true, io); }
    case OpFreeze(io, again) => if s.Open? { FlushKeepsLatency(s, true, io); }
    case _ =>
  }

  lemma ObserveLatency(s: State, input: Input, endedNs: nat, io: Io)
    requires Accepts(s)
    ensures Observe(s, input, endedNs, io).1.Open?
    ensures var timed := Timed(s, OpObserve(input, endedNs, io));
            Observe(s, input, endedNs, io).1.latency == if timed == [] then s.latency else Push(s.latency, timed[0])
  {
    hide Flush, Trained, Observed, RecordFor, Push;
    var s1 := s.(model := Observed(s.model, s.mode, input), slab := s.slab + [RecordFor(s.model, s.mode, input)]);
    FlushKeepsLatency(s1, false, io);
  }

  /** After any run of operations, resets included and whatever system calls fail, the ring of an open
      store is the ring after the latencies since the last reset, from one without samples. */
  lemma {:induction false} RunLatency(s: State, ops: seq<Op>) returns (start: Window)
    requires s.Closed?
    ensures Emptied(start)
    ensures Run(s, ops).Open? ==> Run(s, ops).latency == After(start, Since(s, ops))
    decreases |ops|
  {
    hide Step, Restarts, Timed, Push, Blank;
    start := Ring(seq(SAMPLES, _ => 0), 0, 0);
    if ops != [] {
      var before, last := ops[..|ops| - 1], ops[|ops| - 1];
      var t := Run(s, before);
      start := RunLatency(s, before);
      if Step(t, last).1.Open? {
        StepLatency(t, last);
        if Restarts(t, last) {
          start := Step(t, last).1.latency;
        } else {
          AfterMore(start, Since(s, before), Timed(t, last));
        }
      }
    }
  }

  lemma AfterMore(start: Window, history: seq<nat>, more: seq<nat>)
    requires |more| <= 1
    ensures After(start, history + more) == if more == [] then After(start, history) else Push(After(start, history), more[0])
  {
    hide Push;
    if more == [] {
      assert history + more == history;
    } else {
      assert (history + more)[..|history + more| - 1] == history;
    }
  }

  /** What an open store reports as a percentile is, after any run, the nearest-rank percentile of the
      last 256 latencies since the last reset. */
  lemma ReportedPercentile(s: State, ops: seq<Op>, numerator: nat, denominator: nat)
    requires s.Closed? && Run(s, ops).Open? && Since(s, ops) != [] && denominator > 0
    ensures var v: int, recent := Percentile(Run(s, ops).latency, numerator, denominator), Recent(Since(s, ops));
            AtMost(recent, v - 1) < Rank(|recent|, numerator, denominator) <= AtMost(recent, v)
  {
    hide Run, Since, After, Percentile, AtMost, Rank, Recent;
    var start := RunLatency(s, ops);
    PercentileIsNearestRank(start, Since(s, ops), numerator, denominator);
  }
}
