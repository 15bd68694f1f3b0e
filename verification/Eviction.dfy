/** Which entry of a full set makes room, in the predictor and in the validation table, and what an entry
    remembers besides its counters. */
module Eviction {
  import opened Bytes
  import opened Predictor
  import opened PredictorExact
  import RuntimeSpec

  /** A new pair takes a vacant way, or else the way with the fewest observations, of several the one that
      was observed longest ago, of several the first. */
  lemma RarestMakesRoom(t: Table, context: bv64, candidate: u32, k: nat)
    requires k < WAYS && !Holds(t[Base(context) + Target(t, context, candidate)], context, candidate)
    ensures var lost, other, w := t[Base(context) + Target(t, context, candidate)], t[Base(context) + k], Target(t, context, candidate);
      && (lost.used ==>
            && other.used && lost.count <= other.count
            && (lost.count == other.count ==> lost.lastSequence <= other.lastSequence)
            && (k < w ==> lost.count < other.count || lost.lastSequence < other.lastSequence))
      && (!lost.used && k < w ==> other.used)
  {
    hide SetIndex, HitWay;
    var base, w := Base(context), Target(t, context, candidate);
    assert t[base + k] == Way(t, base, k) && t[base + w] == Way(t, base, w);
    var v := VictimWay(t, base, WAYS);
    assert !Weaker(Way(t, base, k), Way(t, base, v));
  }

  /** A pair that is known keeps its way; its average cost moves an eighth of the way to the new cost and
      starts with the first cost that is not zero. */
  lemma KnownIsReinforced(t: Table, context: bv64, candidate: u32, sequence: nat, cost: u64)
    ensures var i := Base(context) + Target(t, context, candidate);
            var e, was := Learn(t, context, candidate, sequence, cost)[i], t[i];
      && Holds(e, context, candidate) && e.lastSequence == sequence
      && (!Holds(was, context, candidate) ==> e.count == 1 && e.ewmaCost == cost)
      && (Holds(was, context, candidate) ==>
            && e.count == Min(was.count + 1, COUNT_MAX)
            && (was.ewmaCost == 0 ==> e.ewmaCost == cost)
            && (0 < was.ewmaCost && was.ewmaCost * 7 + cost < U64 ==>
                  8 * e.ewmaCost <= 7 * was.ewmaCost + cost < 8 * (e.ewmaCost + 1)))
  {
    hide SetIndex, Target;
  }

  /** The sequence number of the newest observation of a pair. */
  function Newest(log: seq<Event>, p: Pair): nat
    decreases |log|
  {
    if log == [] then 0
    else if log[|log| - 1].pair == p then log[|log| - 1].sequence
    else Newest(log[..|log| - 1], p)
  }

  predicate Remembers(ways: seq<Entry>, log: seq<Event>) {
    forall w :: 0 <= w < |ways| && ways[w].used ==> ways[w].lastSequence == Newest(log, PairOf(ways[w]))
  }

  /** However entries were evicted and came back, an entry remembers when its pair was last observed. */
  lemma {:induction false} EntryRemembers(log: seq<Event>, s: nat)
    requires s < SETS
    ensures Remembers(Ways(Build(log), s), log)
    decreases |log|
  {
    hide SetIndex, Learn, Ways;
    if log == [] {
      EmptyWays(s);
    } else {
      var before, e := log[..|log| - 1], log[|log| - 1];
      EntryRemembers(before, s);
      TableSound(before, s);
      RemembersStep(Build(before), before, e, s);
      assert before + [e] == log;
    }
  }

  lemma RemembersStep(t: Table, log: seq<Event>, e: Event, s: nat)
    requires s < SETS && Remembers(Ways(t, s), log) && Sound(Ways(t, s), log, s)
    ensures Remembers(Ways(PredictorExact.Observe(t, e), s), log + [e])
  {
    hide SetIndex, Learn, Ways, Freq, SatFreq;
    assert (log + [e])[..|log|] == log;
    var w, written := Landing(t, e);
    var ways := Ways(t, s);
    if s == SetOf(e.pair) {
      forall k | 0 <= k < WAYS && k != w && ways[k].used ensures PairOf(ways[k]) != e.pair {
        assert Absent(ways, e.pair) ==> !Stores(ways[k], e.pair);
      }
    } else {
      forall k | 0 <= k < WAYS && ways[k].used ensures PairOf(ways[k]) != e.pair {
      }
    }
  }

  // ----- The validation table

  /** The same for the validation table: the context with the fewest predictions loses its entry, of several
      the one seen longest ago. */
  lemma LeastPredictedMakesRoom(t: RuntimeSpec.Checks, context: bv64, k: nat)
    requires k < WAYS && !RuntimeSpec.Of(t[RuntimeSpec.Slot(t, context)], context)
    ensures var i := RuntimeSpec.Slot(t, context); var lost, other := t[i], t[Base(context) + k];
      && (lost.used ==>
            && other.used && lost.predictions <= other.predictions
            && (lost.predictions == other.predictions ==> lost.lastObservation <= other.lastObservation))
      && (!lost.used && Base(context) + k < i ==> other.used)
  {
    hide SetIndex, RuntimeSpec.KnownWay;
    var base, i := Base(context), RuntimeSpec.Slot(t, context);
    var v := RuntimeSpec.LeastWay(t, base, WAYS);
    assert t[base + k] == RuntimeSpec.At(t, base, k) && t[base + v] == RuntimeSpec.At(t, base, v);
    assert !RuntimeSpec.Lesser(RuntimeSpec.At(t, base, k), RuntimeSpec.At(t, base, v));
  }
}
