/** Whole runs of the stability recorder under one policy. */
module RecorderProofs {
  import opened Bytes
  import opened Q16
  import opened RecordChain
  import opened RecorderSpec

  function After(s: Signals, p: Policy, inputs: seq<Input>): Signals
    decreases |inputs|
  {
    if inputs == [] then s
    else Observed(After(s, p, inputs[..|inputs| - 1]), p, inputs[|inputs| - 1]).s
  }

  function DecisionAt(s: Signals, p: Policy, inputs: seq<Input>, k: nat): Decision
    requires k < |inputs|
  {
    Observed(After(s, p, inputs[..k]), p, inputs[k]).decision
  }

  function CommittedBy(s: Signals, p: Policy, inputs: seq<Input>): seq<Record>
    decreases |inputs|
  {
    if inputs == [] then []
    else
      var front := inputs[..|inputs| - 1];
      CommittedBy(s, p, front) + Observed(After(s, p, front), p, inputs[|inputs| - 1]).committed
  }

  lemma AfterNext(s: Signals, p: Policy, inputs: seq<Input>, k: nat)
    requires k < |inputs|
    ensures After(s, p, inputs[..k + 1]) == Observed(After(s, p, inputs[..k]), p, inputs[k]).s
  {
    assert inputs[..k + 1][..k] == inputs[..k];
  }

  // ----- Episodes

  /** How many of the newest accepted events in a row were at or above the trigger. */
  function RunLength(s: Signals, p: Policy, inputs: seq<Input>): (n: nat)
    ensures n <= |inputs|
    decreases |inputs|
  {
    if inputs == [] then 0
    else
      var front := inputs[..|inputs| - 1];
      if !Allowed(p, inputs[|inputs| - 1].kind) then RunLength(s, p, front)
      else if After(s, p, inputs).delta >= Trigger(p) then RunLength(s, p, front) + 1
      else 0
  }

  /** An accepted event that is below the trigger and within the release distance. */
  predicate Releases(s: Signals, p: Policy, inputs: seq<Input>)
    requires inputs != []
  {
    && Allowed(p, inputs[|inputs| - 1].kind)
    && After(s, p, inputs).delta < Trigger(p) && After(s, p, inputs).delta <= ReleaseDelta(p)
  }

  /** How many records were committed since the newest release. */
  function DumpsSinceRelease(s: Signals, p: Policy, inputs: seq<Input>): nat
    decreases |inputs|
  {
    if inputs == [] then 0
    else if Releases(s, p, inputs) then 0
    else
      DumpsSinceRelease(s, p, inputs[..|inputs| - 1])
      + if DecisionAt(s, p, inputs, |inputs| - 1) == Dump then 1 else 0
  }

  lemma ObservedKeeps(s: Signals, p: Policy, input: Input)
    ensures Observed(s, p, input).s.initialized == s.initialized && Observed(s, p, input).s.tag == s.tag
  {
  }

  lemma {:induction false} StaysInitialized(s: Signals, p: Policy, inputs: seq<Input>)
    requires s.initialized
    ensures After(s, p, inputs).initialized
    decreases |inputs|
  {
    hide Observed;
    if inputs != [] {
      StaysInitialized(s, p, inputs[..|inputs| - 1]);
      ObservedKeeps(After(s, p, inputs[..|inputs| - 1]), p, inputs[|inputs| - 1]);
    }
  }

  /** What one accepted event does to the two counters. */
  lemma CountersStep(s: Signals, p: Policy, input: Input)
    requires s.initialized && Allowed(p, input.kind) && s.dumpRun <= MaxEvents(p)
    ensures var o := Observed(s, p, input); var over := o.s.delta >= Trigger(p);
            var open := if !over && o.s.delta <= ReleaseDelta(p) then 0 else s.dumpRun;
            && o.s.unstableRun == (if over then (s.unstableRun + 1) % U32 else 0)
            && (o.decision == Dump <==> o.s.unstableRun >= MinEvents(p) && open < MaxEvents(p))
            && (o.decision == Dump ==> over)
            && o.s.dumpRun == (if o.decision == Dump then open + 1 else open) <= MaxEvents(p)
            && |o.committed| == (if o.decision == Dump then 1 else 0)
            && (o.decision == Stable <==> !over) && o.decision != Failsafe
  {
    hide Measured, Sampled, NewRecord, Seen, Counted, ReleaseDelta, Trigger, MinEvents, MaxEvents, Allowed;
    var m := Measured(s, Sampled(s, input));
    MeasuredKeeps(s, Sampled(s, input));
    CountedStep(m, p);
    var t := Counted(m, p);
    if Dumps(t, p) {
      SeenKeeps(t.(chain := NewRecord(t, input).chain, dumpRun := t.dumpRun + 1), input);
    } else {
      SeenKeeps(t, input);
    }
  }

  lemma CountedStep(m: Signals, p: Policy)
    ensures var t := Counted(m, p); var over := m.delta >= Trigger(p);
            && t.delta == m.delta
            && t.unstableRun == (if over then (m.unstableRun + 1) % U32 else 0)
            && t.dumpRun == if !over && m.delta <= ReleaseDelta(p) then 0 else m.dumpRun
    ensures m.delta < Trigger(p) ==> !Dumps(Counted(m, p), p)
  {
    hide Trigger, ReleaseDelta, MaxEvents;
  }

  lemma SeenKeeps(s: Signals, input: Input)
    ensures var t := Seen(s, input); t.unstableRun == s.unstableRun && t.dumpRun == s.dumpRun && t.delta == s.delta
  {
  }

  /** The two counters are exactly the length of the unstable run and the size of the open episode. */
  lemma {:induction false} CountersExact(s: Signals, p: Policy, inputs: seq<Input>)
    requires s.initialized && s.unstableRun == 0 && s.dumpRun == 0
    ensures After(s, p, inputs).unstableRun == RunLength(s, p, inputs) % U32
    ensures After(s, p, inputs).dumpRun == DumpsSinceRelease(s, p, inputs) <= MaxEvents(p)
    decreases |inputs|
  {
    hide Observed;
    if inputs != [] {
      var front, last := inputs[..|inputs| - 1], inputs[|inputs| - 1];
      CountersExact(s, p, front);
      StaysInitialized(s, p, front);
      if Allowed(p, last.kind) {
        CountersStep(After(s, p, front), p, last);
        IncrementWraps(RunLength(s, p, front));
      } else {
        Ignored(After(s, p, front), p, last);
      }
    }
  }

  lemma IncrementWraps(n: nat)
    ensures (n % U32 + 1) % U32 == (n + 1) % U32
  {
  }

  lemma Ignored(s: Signals, p: Policy, input: Input)
    requires s.initialized && !Allowed(p, input.kind)
    ensures Observed(s, p, input) == Outcome(s, Stable, [])
  {
  }

  /** A dump is decided only after at least the required number of accepted events in a row at or above
      the trigger, and between two releases at most the allowed number of records is committed. */
  lemma DumpsAreEarned(s: Signals, p: Policy, inputs: seq<Input>, k: nat)
    requires s.initialized && s.unstableRun == 0 && s.dumpRun == 0 && k < |inputs|
    ensures DecisionAt(s, p, inputs, k) == Dump ==> RunLength(s, p, inputs[..k + 1]) >= MinEvents(p)
    ensures DumpsSinceRelease(s, p, inputs[..k + 1]) <= MaxEvents(p)
  {
    hide Observed, After, RunLength, DumpsSinceRelease;
    CountersExact(s, p, inputs[..k + 1]);
    CountersExact(s, p, inputs[..k]);
    AfterNext(s, p, inputs, k);
    StaysInitialized(s, p, inputs[..k]);
    if Allowed(p, inputs[k].kind) {
      CountersStep(After(s, p, inputs[..k]), p, inputs[k]);
    } else {
      Ignored(After(s, p, inputs[..k]), p, inputs[k]);
    }
  }

  // ----- The chain of records

  /** The records committed by a run are linked, from the link at its start to the link at its end. */
  lemma {:induction false} CommittedLinked(s: Signals, p: Policy, inputs: seq<Input>)
    ensures Linked(RecordLayout(), s.chain, CommittedBy(s, p, inputs))
    ensures After(s, p, inputs).chain == Tip(RecordLayout(), s.chain, CommittedBy(s, p, inputs))
    decreases |inputs|
  {
    hide Observed, Link, Content;
    if inputs != [] {
      var front, last := inputs[..|inputs| - 1], inputs[|inputs| - 1];
      CommittedLinked(s, p, front);
      CommitLinks(After(s, p, front), p, last);
      LinkedConcat(RecordLayout(), s.chain, CommittedBy(s, p, front), Observed(After(s, p, front), p, last).committed);
    }
  }

  lemma CommitLinks(s: Signals, p: Policy, input: Input)
    ensures var o := Observed(s, p, input);
            if o.decision == Dump then |o.committed| == 1 && o.committed[0].chain == o.s.chain == Link(s.chain, Content(o.committed[0]))
            else o.committed == [] && o.s.chain == s.chain
  {
    hide Measured, Sampled, Link, Content, NewRecord;
    MeasuredKeeps(s, Sampled(s, input));
  }

  lemma MeasuredKeeps(s: Signals, m: Samples)
    ensures var t := Measured(s, m);
            t.chain == s.chain && t.lastNs == s.lastNs && t.unstableRun == s.unstableRun && t.dumpRun == s.dumpRun
            && t.initialized == s.initialized
  {
  }

  // ----- Adaptation to a constant stream

  /** Every event is accepted and gives the same samples. */
  predicate Constant(s: Signals, p: Policy, inputs: seq<Input>, m: Samples) {
    forall k :: 0 <= k < |inputs| ==> Allowed(p, inputs[k].kind) && Sampled(After(s, p, inputs[..k]), inputs[k]) == m
  }

  /** The three fast averages of a state. */
  predicate WithinOf(s: Signals, m: Samples, d: nat) {
    Distance(s.alternation, m.alternation) <= d && Distance(s.burst, m.burst) <= d && Distance(s.gc, m.gc) <= d
  }

  predicate AllSettled(s: Signals, m: Samples) {
    Settled(s.alternation, m.alternation, 2) && Settled(s.burst, m.burst, 2) && Settled(s.gc, m.gc, 2)
  }

  predicate SameMeasures(s: Signals, t: Signals) {
    && s.alternation == t.alternation && s.burst == t.burst && s.gc == t.gc
    && s.stability == t.stability && s.baseline == t.baseline && s.delta == t.delta && s.initialized == t.initialized
  }

  /** The parts of an accepted event that matter here. */
  lemma MeasuredStep(s: Signals, p: Policy, input: Input)
    requires s.initialized && Allowed(p, input.kind)
    ensures var o, t := Observed(s, p, input), Measured(s, Sampled(s, input));
            && SameMeasures(o.s, t) && o.s.lastNs == input.ns && o.s.initialized
            && (t.delta < Trigger(p) ==> o.decision == Stable) && (t.delta >= Trigger(p) ==> o.decision in {Observe, Dump})
  {
    hide Measured, Sampled, NewRecord, Link, Content, Counted, Seen, Allowed, Trigger, MinEvents, MaxEvents;
    MeasuredKeeps(s, Sampled(s, input));
    var m := Measured(s, Sampled(s, input));
    CountedKeeps(m, p);
    var t := Counted(m, p);
    SeenMeasures(t, input);
    if Dumps(t, p) {
      SeenMeasures(t.(chain := NewRecord(t, input).chain, dumpRun := t.dumpRun + 1), input);
    }
  }

  lemma CountedKeeps(s: Signals, p: Policy)
    ensures SameMeasures(Counted(s, p), s)
    ensures s.delta < Trigger(p) ==> !Dumps(Counted(s, p), p)
  {
  }

  lemma SeenMeasures(s: Signals, input: Input)
    ensures SameMeasures(Seen(s, input), s) && Seen(s, input).lastNs == input.ns
  {
  }

  lemma FastStep(s: Signals, m: Samples, n: nat)
    requires WithinOf(s, m, Reach(n, 2))
    ensures WithinOf(Measured(s, m), m, Reach(n + 1, 2))
  {
    hide Smooth, Distance, Reach, Instability;
    ReachBounds(s.alternation, m.alternation, 2, n);
    ReachBounds(s.burst, m.burst, 2, n);
    ReachBounds(s.gc, m.gc, 2, n);
  }

  lemma {:induction false} FastWithin(s: Signals, p: Policy, inputs: seq<Input>, m: Samples, n: nat)
    requires s.initialized && Constant(s, p, inputs, m) && n <= |inputs|
    ensures After(s, p, inputs[..n]).initialized && WithinOf(After(s, p, inputs[..n]), m, Reach(n, 2))
  {
    hide After, Observed, Sampled, Measured, Distance;
    if n == 0 {
      assert inputs[..0] == [];
      Initially(s, p, m);
    } else {
      FastWithin(s, p, inputs, m, n - 1);
      FastStep(After(s, p, inputs[..n - 1]), m, n - 1);
      AfterNext(s, p, inputs, n - 1);
      MeasuredStep(After(s, p, inputs[..n - 1]), p, inputs[n - 1]);
    }
  }

  lemma Initially(s: Signals, p: Policy, m: Samples)
    ensures After(s, p, []) == s && WithinOf(s, m, Reach(0, 2))
  {
  }

  /** Close to their inputs, the averages need at most `d` more steps until they no longer move. */
  lemma CloseStep(s: Signals, m: Samples, d: nat)
    requires d <= 3 && Nearly(s, m, d)
    ensures Nearly(Measured(s, m), m, if d == 0 then 0 else d - 1)
    ensures AllSettled(s, m) ==>
      Measured(s, m).alternation == s.alternation && Measured(s, m).burst == s.burst && Measured(s, m).gc == s.gc
  {
    hide Smooth, Instability;
    SettledIsFixed(s.alternation, m.alternation, 2);
    SettledIsFixed(s.burst, m.burst, 2);
    SettledIsFixed(s.gc, m.gc, 2);
  }

  /** Settled, or above the input by at most `d`. */
  predicate NearlyOne(x: q16, input: q16, d: nat) {
    Settled(x, input, 2) || (x > input && x - input <= d)
  }

  predicate Nearly(s: Signals, m: Samples, d: nat) {
    NearlyOne(s.alternation, m.alternation, d) && NearlyOne(s.burst, m.burst, d) && NearlyOne(s.gc, m.gc, d)
  }

  lemma {:induction false} SettlesAt60(s: Signals, p: Policy, inputs: seq<Input>, m: Samples, j: nat)
    requires s.initialized && Constant(s, p, inputs, m) && 57 + j <= |inputs|
    ensures After(s, p, inputs[..57 + j]).initialized
    ensures Nearly(After(s, p, inputs[..57 + j]), m, if j >= 3 then 0 else 3 - j)
  {
    hide After, Observed, Sampled, Measured, Nearly, WithinOf, AllSettled, Distance, Reach;
    if j == 0 {
      WithinRounding();
      FastWithin(s, p, inputs, m, 57);
      CloseEnough(After(s, p, inputs[..57]), m, Reach(57, 2));
    } else {
      var n := 56 + j;
      SettlesAt60(s, p, inputs, m, j - 1);
      CloseStep(After(s, p, inputs[..n]), m, if j - 1 >= 3 then 0 else 3 - (j - 1));
      AfterNext(s, p, inputs, n);
      MeasuredStep(After(s, p, inputs[..n]), p, inputs[n]);
      NearlySame(After(s, p, inputs[..n + 1]), Measured(After(s, p, inputs[..n]), m), m, if j >= 3 then 0 else 3 - j);
    }
  }

  lemma CloseEnough(s: Signals, m: Samples, d: nat)
    requires WithinOf(s, m, d) && d <= 3
    ensures Nearly(s, m, 3)
  {
  }

  lemma NearlySame(s: Signals, t: Signals, m: Samples, d: nat)
    requires SameMeasures(s, t) && Nearly(t, m, d)
    ensures Nearly(s, m, d)
  {
  }

  /** With settled averages the stability is always the same. */
  function FinalStability(s: Signals, m: Samples): q16 {
    ONE - Instability(s.alternation, s.burst, s.gc, m.latency, m.flags)
  }

  lemma SlowStep(s: Signals, m: Samples, j: nat, goal: q16)
    requires AllSettled(s, m) && goal == FinalStability(s, m)
    requires Distance(s.baseline, goal) <= Reach(j, 4)
    ensures var t := Measured(s, m);
            && AllSettled(t, m) && FinalStability(t, m) == goal && t.stability == goal
            && Distance(t.baseline, goal) <= Reach(j + 1, 4)
            && t.delta == Distance(t.baseline, goal)
  {
    hide Smooth, Instability, Reach;
    CloseStep(s, m, 0);
    ReachBounds(s.baseline, goal, 4, j);
  }

  lemma {:induction false} SlowWithin(s: Signals, p: Policy, inputs: seq<Input>, m: Samples, j: nat)
    requires s.initialized && Constant(s, p, inputs, m) && 60 + j <= |inputs|
    ensures var t := After(s, p, inputs[..60 + j]);
            && t.initialized && AllSettled(t, m) && Distance(t.baseline, FinalStability(t, m)) <= Reach(j, 4)
            && (j > 0 ==> t.stability == FinalStability(t, m) && t.delta == Distance(t.baseline, t.stability))
  {
    hide After, Observed, Sampled, Measured, Reach, FinalStability;
    if j == 0 {
      SettlesAt60(s, p, inputs, m, 3);
      FarthestReach(After(s, p, inputs[..60]).baseline, FinalStability(After(s, p, inputs[..60]), m));
    } else {
      var n := 59 + j;
      SlowWithin(s, p, inputs, m, j - 1);
      var t := After(s, p, inputs[..n]);
      SlowStep(t, m, j - 1, FinalStability(t, m));
      AfterNext(s, p, inputs, n);
      MeasuredStep(t, p, inputs[n]);
      SameFinal(Observed(t, p, inputs[n]).s, Measured(t, m), m);
    }
  }

  lemma FarthestReach(x: q16, goal: q16)
    ensures Distance(x, goal) <= Reach(0, 4)
  {
  }

  lemma SameFinal(s: Signals, t: Signals, m: Samples)
    requires s.alternation == t.alternation && s.burst == t.burst && s.gc == t.gc
    ensures FinalStability(s, m) == FinalStability(t, m)
  {
  }

  lemma {:induction false} ReachDecreases(n: nat, k: nat)
    requires n <= k
    ensures Reach(k, 4) <= Reach(n, 4)
    decreases k
  {
    if n < k {
      ReachDecreases(n, k - 1);
    }
  }

  /** Under any policy with a trigger above 15 the recorder adapts to any constant stream: from event
      252 on every decision is Stable. */
  lemma Settles(s: Signals, p: Policy, inputs: seq<Input>, m: Samples, k: nat)
    requires s.initialized && Constant(s, p, inputs, m) && Trigger(p) > 15
    requires 252 <= k < |inputs|
    ensures DecisionAt(s, p, inputs, k) == Stable
  {
    hide After, Observed, Sampled, Measured, Reach, FinalStability;
    SlowWithin(s, p, inputs, m, k + 1 - 60);
    WithinRounding();
    ReachDecreases(193, k + 1 - 60);
    AfterNext(s, p, inputs, k);
    FastWithin(s, p, inputs, m, k);
    MeasuredStep(After(s, p, inputs[..k]), p, inputs[k]);
  }

  // ----- Why the trigger has to be above 15

  const QUIET: Samples := Samples(0, 0, 0, 0, 0)

  /** Once below 65520, the baseline never rises above it, because of the rounding. */
  lemma {:induction false} BaselineStuck(s: Signals, p: Policy, inputs: seq<Input>, n: nat)
    requires s.initialized && s.lastNs != 0 && s.baseline <= 65520 && n <= |inputs|
    requires forall k :: 0 <= k < |inputs| ==> Allowed(p, inputs[k].kind) && inputs[k].ns != 0
    ensures var t := After(s, p, inputs[..n]); t.initialized && t.lastNs != 0 && t.baseline <= 65520
  {
    hide After, Observed, Sampled, Allowed;
    if n == 0 {
      assert inputs[..0] == [];
      Initially(s, p, QUIET);
    } else {
      BaselineStuck(s, p, inputs, n - 1);
      var t := After(s, p, inputs[..n - 1]);
      AfterNext(s, p, inputs, n - 1);
      MeasuredStep(t, p, inputs[n - 1]);
      BaselineBelow(t, Sampled(t, inputs[n - 1]));
    }
  }

  lemma BaselineBelow(s: Signals, m: Samples)
    requires s.lastNs != 0 && s.baseline <= 65520
    ensures Measured(s, m).baseline <= 65520
  {
    hide Instability, Smooth;
    SmoothStaysBelow(s.baseline, Measured(s, m).stability);
  }

  lemma SmoothStaysBelow(x: q16, input: q16)
    requires x <= 65520
    ensures Smooth(x, input, 4) <= 65520
  {
    hide Smooth;
    SmoothBetween(x, input, 4);
  }

  lemma QuietStability(s: Signals)
    requires AllSettled(s, QUIET)
    ensures FinalStability(s, QUIET) == 65535
  {
  }

  /** With a trigger of 15 or less, a recorder whose baseline was once lowered never comes to rest on
      a stream without any disturbance. */
  lemma NeverSettles(s: Signals, p: Policy, inputs: seq<Input>, k: nat)
    requires s.initialized && s.lastNs != 0 && s.baseline <= 65520 && Trigger(p) <= 15
    requires Constant(s, p, inputs, QUIET) && forall k :: 0 <= k < |inputs| ==> inputs[k].ns != 0
    requires 60 <= k < |inputs|
    ensures DecisionAt(s, p, inputs, k) in {Observe, Dump}
  {
    hide After, Observed, Sampled, Measured, Reach, FinalStability, Allowed;
    SlowWithin(s, p, inputs, QUIET, k + 1 - 60);
    QuietStability(After(s, p, inputs[..k + 1]));
    BaselineStuck(s, p, inputs, k + 1);
    AfterNext(s, p, inputs, k);
    BaselineStuck(s, p, inputs, k);
    MeasuredStep(After(s, p, inputs[..k]), p, inputs[k]);
  }

  /** An event with nothing unusual about it, and one that took 5 milliseconds. */
  function Calm(kind: u16): Input {
    Input(1, 0, 0, 0, 0, 0, 0, 0, 0, kind, 0)
  }

  function Slow(kind: u16): Input {
    Calm(kind).(latency := 5_000_000)
  }

  /** The direction of the last event cannot be the opposite one. */
  predicate SameWay(s: Signals, kind: u16) {
    s.direction == 0 || s.direction == Direction(kind)
  }

  lemma AfterSlow(tag: u64, p: Policy, kind: u16)
    requires Allowed(p, kind)
    ensures var s := After(Initial(tag), p, [Slow(kind)]);
            s.initialized && s.lastNs == 1 && s.baseline == 54613 && SameWay(s, kind)
  {
    hide NewRecord, Allowed, Observed, Smooth;
    var s, slow := Initial(tag), Slow(kind);
    assert [slow][..0] == [];
    assert Sampled(s, slow) == Samples(0, 0, 0, ONE, 0);
    SettledIsFixed(0, 0, 2);
    MeasuredStep(s, p, slow);
    assert Measured(s, Sampled(s, slow)).baseline == 54613;
    assert After(s, p, [slow]) == Observed(After(s, p, []), p, slow).s;
    KeepsWay(s, p, slow);
  }

  lemma KeepsWay(s: Signals, p: Policy, input: Input)
    requires s.initialized && Allowed(p, input.kind) && SameWay(s, input.kind)
    ensures SameWay(Observed(s, p, input).s, input.kind)
  {
    hide NewRecord, Allowed, Sampled, Smooth, Instability;
  }

  lemma {:induction false} CalmIsConstant(s: Signals, p: Policy, kind: u16, inputs: seq<Input>, n: nat)
    requires s.initialized && s.lastNs == 1 && SameWay(s, kind) && Allowed(p, kind) && n <= |inputs|
    requires forall k :: 0 <= k < |inputs| ==> inputs[k] == Calm(kind)
    ensures var t := After(s, p, inputs[..n]);
            t.initialized && t.lastNs == 1 && SameWay(t, kind) && Sampled(t, Calm(kind)) == QUIET
  {
    hide NewRecord, Observed, Measured, Allowed;
    if n == 0 {
      assert inputs[..0] == [];
    } else {
      CalmIsConstant(s, p, kind, inputs, n - 1);
      AfterNext(s, p, inputs, n - 1);
      MeasuredStep(After(s, p, inputs[..n - 1]), p, inputs[n - 1]);
      KeepsWay(After(s, p, inputs[..n - 1]), p, inputs[n - 1]);
    }
  }

  /** So the bound of 15 is exact: for every smaller trigger and every kind of event that the policy
      accepts, one slow event followed by calm ones is a stream on which the recorder reports
      instability for ever. */
  lemma SmallTriggerFails(tag: u64, p: Policy, kind: u16, n: nat, k: nat)
    requires Trigger(p) <= 15 && Allowed(p, kind) && 60 <= k < n
    ensures DecisionAt(After(Initial(tag), p, [Slow(kind)]), p, seq(n, _ => Calm(kind)), k) in {Observe, Dump}
  {
    hide After, Observed, Allowed;
    var s, inputs := After(Initial(tag), p, [Slow(kind)]), seq(n, _ => Calm(kind));
    AfterSlow(tag, p, kind);
    forall j | 0 <= j < n ensures Sampled(After(s, p, inputs[..j]), inputs[j]) == QUIET {
      CalmIsConstant(s, p, kind, inputs, j);
    }
    NeverSettles(s, p, inputs, k);
  }

  /** A policy that accepts no kind of event lets everything pass as stable, whatever the trigger. */
  lemma {:induction false} NothingAccepted(s: Signals, p: Policy, inputs: seq<Input>, k: nat)
    requires s.initialized && k < |inputs| && forall kind: u16 :: !Allowed(p, kind)
    ensures After(s, p, inputs[..k]) == s && DecisionAt(s, p, inputs, k) == Stable
    decreases k
  {
    hide NewRecord, Allowed, Measured, Sampled;
    if k == 0 {
      assert inputs[..0] == [];
    } else {
      NothingAccepted(s, p, inputs, k - 1);
      AfterNext(s, p, inputs, k - 1);
    }
  }
}
