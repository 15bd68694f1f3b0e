/** What the samples, the limits and the records of the stability recorder mean. */
module RecorderSamples {
  import opened Bytes
  import opened Q16
  import opened RecordChain
  import opened RecorderSpec
  import opened RecorderProofs

  // ----- Bursts

  /** The shorter the time since the last event, the larger the sample: full up to a millisecond, half up to
      ten, and nothing beyond, for the first event, or when time does not go forward. */
  lemma BurstMeans(previous: u64, gap: nat)
    requires previous + gap < U64
    ensures var b := BurstSample(previous, previous + gap);
      && (b == 65535 <==> previous != 0 && 1 <= gap <= 1_000_000)
      && (b == 32768 <==> previous != 0 && 1_000_000 < gap <= 10_000_000)
      && (b == 0 <==> previous == 0 || gap == 0 || gap > 10_000_000)
    ensures forall current: u64 :: current <= previous ==> BurstSample(previous, current) == 0
  {
  }

  // ----- Directions

  /** Reads from the network or another process have direction 1, writes direction 2. */
  lemma DirectionMeans(kind: u16)
    ensures Direction(kind) == 1 <==> kind in {1, 8}
    ensures Direction(kind) == 2 <==> kind in {2, 9}
    ensures Direction(kind) == 0 <==> kind !in {1, 2, 8, 9}
  {
  }

  /** The direction of the newest accepted event that has one. */
  function LastDirection(p: Policy, inputs: seq<Input>, none: u16): u16
    decreases |inputs|
  {
    if inputs == [] then none
    else
      var last := inputs[|inputs| - 1];
      if Allowed(p, last.kind) && last.kind in {1, 2, 8, 9} then Direction(last.kind)
      else LastDirection(p, inputs[..|inputs| - 1], none)
  }

  /** When the newest accepted event happened. */
  function LastTime(p: Policy, inputs: seq<Input>, none: u64): u64
    decreases |inputs|
  {
    if inputs == [] then none
    else if Allowed(p, inputs[|inputs| - 1].kind) then inputs[|inputs| - 1].ns
    else LastTime(p, inputs[..|inputs| - 1], none)
  }

  lemma OneSeen(s: Signals, p: Policy, input: Input)
    requires s.initialized
    ensures var t := Observed(s, p, input).s;
      && t.direction == LastDirection(p, [input], s.direction) && t.lastNs == LastTime(p, [input], s.lastNs)
  {
    hide Measured, Sampled, NewRecord, Link, Content, Trigger, ReleaseDelta, MinEvents, MaxEvents, Allowed;
    assert [input][..0] == [];
    DirectionMeans(input.kind);
    MeasuredKeepsDirection(s, Sampled(s, input));
  }

  lemma MeasuredKeepsDirection(s: Signals, m: Samples)
    ensures Measured(s, m).direction == s.direction
  {
  }

  /** Over whole runs the recorder remembers the newest direction and the newest time of the events it
      accepted; events without a direction and events it does not accept leave both alone. */
  lemma {:induction false} RunSeen(s: Signals, p: Policy, inputs: seq<Input>)
    requires s.initialized
    ensures After(s, p, inputs).direction == LastDirection(p, inputs, s.direction)
    ensures After(s, p, inputs).lastNs == LastTime(p, inputs, s.lastNs)
    decreases |inputs|
  {
    hide Observed, Allowed, Direction;
    if inputs != [] {
      var front, last := inputs[..|inputs| - 1], inputs[|inputs| - 1];
      RunSeen(s, p, front);
      StaysInitialized(s, p, front);
      OneSeen(After(s, p, front), p, last);
      assert [last][..0] == [];
    }
  }

  /** So the alternation sample of an event is full exactly when it goes the other way than the newest
      accepted event with a direction, and its burst sample is that of the time since the newest accepted
      event. */
  lemma RunSamples(s: Signals, p: Policy, inputs: seq<Input>, input: Input)
    requires s.initialized && s.direction in {0, 1, 2}
    ensures var m, before := Sampled(After(s, p, inputs), input), LastDirection(p, inputs, s.direction);
      && (m.alternation == 65535 <==> (input.kind in {1, 8} && before == 2) || (input.kind in {2, 9} && before == 1))
      && (m.alternation == 0 || m.alternation == 65535)
      && m.burst == BurstSample(LastTime(p, inputs, s.lastNs), input.ns)
  {
    hide After, LastDirection, LastTime, BurstSample, LatencyPressure, FlagPressure, Has;
    RunSeen(s, p, inputs);
    DirectionMeans(input.kind);
    DirectionRange(p, inputs, s.direction);
  }

  lemma {:induction false} DirectionRange(p: Policy, inputs: seq<Input>, none: u16)
    requires none in {0, 1, 2}
    ensures LastDirection(p, inputs, none) in {0, 1, 2}
    decreases |inputs|
  {
    if inputs != [] {
      DirectionRange(p, inputs[..|inputs| - 1], none);
    }
  }

  // ----- The other samples

  /** The four boundary flags weigh a quarter each; no other flag counts. */
  lemma FlagsWeigh(flags: bv32)
    ensures FlagPressure(flags) == FlagPressure(flags & 0x1d)
    ensures FlagPressure(0) == 0 && FlagPressure(0x1d) == 65535
    ensures FlagPressure(0x1) == FlagPressure(0x4) == FlagPressure(0x8) == FlagPressure(0x10) == 16384
    ensures FlagPressure(0x5) == 32768 && FlagPressure(0xd) == 49152
  {
    SameFlags(flags);
  }

  lemma SameFlags(flags: bv32)
    ensures forall flag: bv32 :: flag == 0x1 || flag == 0x4 || flag == 0x8 || flag == 0x10 ==>
              Has(flags & 0x1d, flag) == Has(flags, flag)
  {
  }

  /** Near a collection the pressure counts as three quarters at least; slow events saturate at five
      milliseconds. */
  lemma PressureMeans(s: Signals, input: Input)
    ensures var m := Sampled(s, input);
      && m.gc == (if Has(input.flags, 0x2) && input.gc < 49152 then 49152 else input.gc)
      && m.latency == (if input.latency >= 5_000_000 then 65535 else input.latency * 65535 / 5_000_000)
  {
    hide Has, FlagPressure, BurstSample, Direction;
    assert input.latency < 5_000_000 ==> input.latency * 65535 / 5_000_000 < 65536;
  }

  /** The first event sets the baseline to what it measures, so it is never reported. */
  lemma FirstIsStable(s: Signals, p: Policy, input: Input)
    requires s.initialized && s.lastNs == 0 && Allowed(p, input.kind)
    ensures var o := Observed(s, p, input); o.decision == Stable && o.s.delta == 0 && o.s.baseline == o.s.stability
  {
    hide Sampled, NewRecord, Link, Content, Allowed, Smooth, Instability;
    var m := Measured(s, Sampled(s, input));
    assert m.delta == 0 && m.baseline == m.stability;
    CountedKeeps(m, p);
    TriggerPositive(p);
  }

  lemma TriggerPositive(p: Policy)
    ensures Trigger(p) > 0
  {
  }

  // ----- The limits of a policy

  /** Zero stands for the default: 18 percent, half the trigger, two events, and as many as the ring holds. */
  lemma DefaultLimits(p: Policy)
    ensures Trigger(p) == if p.deltaTrigger == 0 then 11796 else p.deltaTrigger
    ensures ReleaseDelta(p) == if p.releaseDelta == 0 then Trigger(p) / 2 else p.releaseDelta
    ensures MinEvents(p) == if p.minEvents == 0 then 2 else p.minEvents
    ensures MaxEvents(p) == if p.maxEvents == 0 then 256 else p.maxEvents
  {
  }

  /** Without a mask the kinds 1 to 31 are accepted; a mask accepts the kinds whose bits are set. */
  lemma KindsAllowed(p: Policy, kind: u16)
    ensures p.mask == 0 ==> (Allowed(p, kind) <==> 1 <= kind <= 31)
    ensures p.mask == 0x6 ==> (Allowed(p, kind) <==> kind in {1, 2})
    ensures p.mask == 0x8000_0300 ==> (Allowed(p, kind) <==> kind in {8, 9, 31})
    ensures Allowed(p, kind) ==> 1 <= kind <= 31
  {
    hide HasBit;
    if kind < 32 {
      MaskBits(kind);
    }
  }

  lemma MaskBits(kind: u16)
    requires kind < 32
    ensures HasBit(0x6, kind) <==> kind in {1, 2}
    ensures HasBit(0x8000_0300, kind) <==> kind in {8, 9, 31}
  {
  }

  // ----- Records

  /** A record holds the event with the top flag set, the measures at that moment, and decision 2. */
  lemma RecordTells(s: Signals, input: Input)
    ensures var r := NewRecord(s, input);
      && r == Record(input.ns, input.stream, input.peer, Link(s.chain, Content(r)), input.pid, input.tid,
                     input.descriptor, input.byteCount, input.latency, r.flags, input.kind,
                     s.stability, s.baseline, s.delta, s.alternation, s.burst, s.gc, 2)
      && r.flags & 0x8000_0000 == 0x8000_0000 && r.flags & 0x7fff_ffff == input.flags & 0x7fff_ffff
  {
    hide Link, Pack, Triggered;
    TopFlag(input.flags);
  }

  lemma TopFlag(flags: bv32)
    ensures Triggered(flags) & 0x8000_0000 == 0x8000_0000 && Triggered(flags) & 0x7fff_ffff == flags & 0x7fff_ffff
  {
  }

  // ----- Six calm events and four that alternate under pressure

  const LIMITS: Policy := Policy(11796, 4096, 2, 8, 0, 0)

  predicate Looks(s: Signals, ns: u64, direction: u16, alternation: q16, burst: q16, gc: q16, baseline: q16,
                  run: u32, dumps: u32) {
    && s.initialized && s.lastNs == ns && s.direction == direction && s.alternation == alternation && s.burst == burst
    && s.gc == gc && s.baseline == baseline && s.unstableRun == run && s.dumpRun == dumps
  }

  /** A read on a quiet line, and a read or write in a burst near a collection at a boundary. */
  predicate Calm(input: Input) {
    input.kind == 1 && input.latency == 1000 && input.flags == 0 && input.gc == 0
  }

  predicate Stormy(input: Input, kind: u16) {
    input.kind == kind && input.latency == 4_500_000 && input.flags == 0x26 && input.gc == 60000
  }

  lemma StormFlags()
    ensures FlagPressure(0) == 0 && FlagPressure(0x26) == 16384 && Has(0x26, 0x2) && !Has(0, 0x2)
    ensures LatencyPressure(1000) == 13 && LatencyPressure(4_500_000) == 58981
  {
  }

  /** One event in numbers: what the averages become, and what is decided. */
  lemma EventIs(s: Signals, p: Policy, input: Input, m: Samples)
    requires s.initialized && Allowed(p, input.kind) && m == Sampled(s, input)
    ensures var o := Observed(s, p, input);
            var a, b, g := (3 * s.alternation + m.alternation) / 4, (3 * s.burst + m.burst) / 4, (3 * s.gc + m.gc) / 4;
            var stability := 65535 - (2 * ((a + b) / 2) + 2 * g + m.latency + m.flags) / 6;
            var baseline := if s.lastNs == 0 then stability else (15 * s.baseline + stability) / 16;
            var delta := if stability >= baseline then stability - baseline else baseline - stability;
      && o.s.alternation == a && o.s.burst == b && o.s.gc == g && o.s.baseline == baseline && o.s.delta == delta
      && o.s.lastNs == input.ns && o.s.initialized
  {
    hide Sampled, Allowed, NewRecord, Link, Content, Counted, Seen, Trigger, MinEvents, MaxEvents, Smooth, Average, Distance, Instability;
    MeasuredStep(s, p, input);
    SmoothBetween(s.alternation, m.alternation, 2);
    SmoothBetween(s.burst, m.burst, 2);
    SmoothBetween(s.gc, m.gc, 2);
    var a, b, g := Smooth(s.alternation, m.alternation, 2), Smooth(s.burst, m.burst, 2), Smooth(s.gc, m.gc, 2);
    InstabilityIs(a, b, g, m.latency, m.flags);
    var stability := ONE - Instability(a, b, g, m.latency, m.flags);
    SmoothBetween(s.baseline, stability, 4);
    DistanceIs(stability, if s.lastNs == 0 then stability else Smooth(s.baseline, stability, 4));
  }

  lemma InstabilityIs(a: q16, b: q16, g: q16, latency: q16, flags: q16)
    ensures Instability(a, b, g, latency, flags) == (2 * ((a + b) / 2) + 2 * g + latency + flags) / 6
  {
  }

  lemma DistanceIs(x: q16, y: q16)
    ensures Distance(x, y) == if x >= y then x - y else y - x
  {
  }

  lemma CalmSamples(s: Signals, input: Input)
    requires Calm(input) && s.direction in {0, 1} && (s.lastNs == 0 || input.ns > s.lastNs + 10_000_000)
    ensures Sampled(s, input) == Samples(0, 0, 0, 13, 0) && Allowed(LIMITS, input.kind)
  {
    hide FlagPressure, LatencyPressure, Has;
    StormFlags();
  }

  lemma StormySamples(s: Signals, input: Input, kind: u16)
    requires Stormy(input, kind) && (kind == 1 || kind == 2) && s.direction == 3 - kind
    requires 0 < s.lastNs < input.ns <= s.lastNs + 1_000_000
    ensures Sampled(s, input) == Samples(65535, 65535, 60000, 58981, 16384) && Allowed(LIMITS, input.kind)
  {
    hide FlagPressure, LatencyPressure, Has;
    StormFlags();
  }

  /** One event of the kind, from numbers to numbers. */
  lemma Moves(s: Signals, input: Input, m: Samples, over: bool)
    requires s.initialized && Allowed(LIMITS, input.kind) && m == Sampled(s, input) && s.dumpRun <= 8
    requires over <==> Observed(s, LIMITS, input).s.delta >= 11796
    ensures var o := Observed(s, LIMITS, input);
      && o.s.direction == (if Direction(input.kind) != 0 then Direction(input.kind) else s.direction)
      && o.s.unstableRun == (if over then (s.unstableRun + 1) % U32 else 0)
      && (over && o.s.unstableRun >= 2 && s.dumpRun < 8 ==> o.decision == Dump && o.s.dumpRun == s.dumpRun + 1)
      && (over && o.s.unstableRun < 2 ==> o.decision == Observe && o.s.dumpRun == s.dumpRun)
      && (!over ==> o.decision == Stable)
      && (!over && o.s.delta <= 4096 ==> o.s.dumpRun == 0)
      && |o.committed| == (if o.decision == Dump then 1 else 0)
  {
    hide Observed, Allowed, Direction;
    CountersStep(s, LIMITS, input);
    OneSeen(s, LIMITS, input);
    LastOfOne(input, s.direction);
    assert Observed(s, LIMITS, input).decision in {Stable, Observe, Dump} by { DecisionKinds(s, LIMITS, input); }
  }

  lemma LastOfOne(input: Input, none: u16)
    requires Allowed(LIMITS, input.kind)
    ensures LastDirection(LIMITS, [input], none) == if Direction(input.kind) != 0 then Direction(input.kind) else none
  {
    hide Allowed;
    DirectionMeans(input.kind);
    assert [input][..0] == [];
  }

  lemma DecisionKinds(s: Signals, p: Policy, input: Input)
    requires s.initialized
    ensures Observed(s, p, input).decision in {Stable, Observe, Dump}
  {
    hide Measured, Sampled, NewRecord, Counted, Seen, Allowed;
  }

  lemma CalmEvent(s: Signals, input: Input)
    requires Calm(input) && (s.lastNs == 0 || input.ns > s.lastNs + 10_000_000)
    requires Looks(s, s.lastNs, s.direction, 0, 0, 0, s.baseline, 0, 0) && s.direction in {0, 1}
    requires s.lastNs == 0 || s.baseline == 65533
    ensures var o := Observed(s, LIMITS, input);
            o.decision == Stable && o.committed == [] && Looks(o.s, input.ns, 1, 0, 0, 0, 65533, 0, 0)
  {
    hide Observed, Sampled, Allowed;
    CalmSamples(s, input);
    EventIs(s, LIMITS, input, Samples(0, 0, 0, 13, 0));
    Moves(s, input, Samples(0, 0, 0, 13, 0), false);
    DirectionMeans(input.kind);
  }

  /** In numbers: where the averages are before and after the event. */
  lemma StormyEvent(s: Signals, input: Input, kind: u16, ns: u64, a: q16, g: q16, baseline: q16, n: u32,
                    a': q16, g': q16, baseline': q16)
    requires Stormy(input, kind) && (kind == 1 || kind == 2) && 0 < ns < input.ns <= ns + 1_000_000
    requires n <= 3 && Looks(s, ns, 3 - kind, a, a, g, baseline, n, if n == 0 then 0 else n - 1)
    requires a' == (3 * a + 65535) / 4 && g' == (3 * g + 60000) / 4
    requires var stability := 65535 - (2 * a' + 2 * g' + 58981 + 16384) / 6;
             baseline' == (15 * baseline + stability) / 16 && baseline' >= stability + 11796
    ensures var o := Observed(s, LIMITS, input);
            && o.decision == (if n == 0 then Observe else Dump) && |o.committed| == (if n == 0 then 0 else 1)
            && Looks(o.s, input.ns, kind, a', a', g', baseline', n + 1, n)
  {
    hide Observed, Sampled, Allowed, Direction;
    var m := Samples(65535, 65535, 60000, 58981, 16384);
    StormySamples(s, input, kind);
    StormyMeasures(s, input, m, a, g, baseline, a', g', baseline');
    Moves(s, input, m, true);
    DirectionMeans(input.kind);
  }

  lemma StormyMeasures(s: Signals, input: Input, m: Samples, a: q16, g: q16, baseline: q16, a': q16, g': q16, baseline': q16)
    requires s.initialized && Allowed(LIMITS, input.kind) && m == Sampled(s, input) && s.lastNs != 0
    requires m == Samples(65535, 65535, 60000, 58981, 16384)
    requires s.alternation == s.burst == a && s.gc == g && s.baseline == baseline
    requires a' == (3 * a + 65535) / 4 && g' == (3 * g + 60000) / 4
    requires var stability := 65535 - (2 * a' + 2 * g' + 58981 + 16384) / 6;
             baseline' == (15 * baseline + stability) / 16 && baseline' >= stability + 11796
    ensures var t := Observed(s, LIMITS, input).s;
      && t.alternation == t.burst == a' && t.gc == g' && t.baseline == baseline' && t.delta >= 11796
      && t.lastNs == input.ns && t.initialized
  {
    hide Observed, Sampled, Allowed;
    EventIs(s, LIMITS, input, m);
    assert (a' + a') / 2 == a';
  }

  /** The scenario of the recorder's self-test, in general: any number of calm reads, however many and however far
      apart, is reported as stable and commits nothing. */
  lemma {:induction false} CalmStays(tag: u64, inputs: seq<Input>)
    requires inputs != [] && forall i :: 0 <= i < |inputs| ==> Calm(inputs[i]) && inputs[i].ns > 0
    requires forall i :: 0 < i < |inputs| ==> inputs[i].ns > inputs[i - 1].ns + 10_000_000
    ensures Looks(After(Initial(tag), LIMITS, inputs), inputs[|inputs| - 1].ns, 1, 0, 0, 0, 65533, 0, 0)
    ensures CommittedBy(Initial(tag), LIMITS, inputs) == []
    ensures DecisionAt(Initial(tag), LIMITS, inputs, |inputs| - 1) == Stable
    decreases |inputs|
  {
    hide Observed;
    var front, last := inputs[..|inputs| - 1], inputs[|inputs| - 1];
    if front != [] {
      CalmStays(tag, front);
      assert front[|front| - 1] == inputs[|inputs| - 2];
    }
    CalmEvent(After(Initial(tag), LIMITS, front), last);
  }

  /** And after that a burst of alternating writes and reads under pressure is reported at once, and from its
      second event on it is committed. */
  lemma StormIsCommitted(s: Signals, ns: u64, w: Input, x: Input, y: Input, z: Input)
    requires Looks(s, ns, 1, 0, 0, 0, 65533, 0, 0) && 0 < ns < w.ns < x.ns < y.ns < z.ns <= ns + 1_000_000
    requires Stormy(w, 2) && Stormy(x, 1) && Stormy(y, 2) && Stormy(z, 1)
    ensures var a := Observed(s, LIMITS, w);
            var b := Observed(a.s, LIMITS, x);
            var c := Observed(b.s, LIMITS, y);
            var d := Observed(c.s, LIMITS, z);
      && a.decision == Observe && b.decision == c.decision == d.decision == Dump
      && |b.committed| == |c.committed| == |d.committed| == 1
  {
    hide Observed, Looks;
    StormyEvent(s, w, 2, ns, 0, 0, 65533, 0, 16383, 15000, 64094);
    var a := Observed(s, LIMITS, w).s;
    StormyEvent(a, x, 1, w.ns, 16383, 15000, 64094, 1, 28671, 26250, 62254);
    var b := Observed(a, LIMITS, x).s;
    StormyEvent(b, y, 2, x.ns, 28671, 26250, 62254, 2, 37887, 34687, 60162);
    var c := Observed(b, LIMITS, y).s;
    StormyEvent(c, z, 1, y.ns, 37887, 34687, 60162, 3, 44799, 41015, 57925);
  }
}
