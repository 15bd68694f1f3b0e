/** The predictor against exact counting: what a table built by any sequence of observations says
    about the frequencies in that sequence. */
module PredictorExact {
  import opened Bytes
  import opened Predictor

  datatype Pair = Pair(context: bv64, candidate: u32)

  datatype Event = Event(pair: Pair, sequence: nat, cost: u64)

  function Observe(t: Table, e: Event): Table {
    Learn(t, e.pair.context, e.pair.candidate, e.sequence, e.cost)
  }

  /** The table after the observations of `log`, in order. */
  function Build(log: seq<Event>): Table {
    if log == [] then EmptyTable() else Observe(Build(log[..|log| - 1]), log[|log| - 1])
  }

  function Freq(log: seq<Event>, p: Pair): nat {
    if log == [] then 0
    else Freq(log[..|log| - 1], p) + (if log[|log| - 1].pair == p then 1 else 0)
  }

  /** The frequency as a 32-bit counter can show it. */
  function SatFreq(log: seq<Event>, p: Pair): nat {
    Min(Freq(log, p), COUNT_MAX)
  }

  /** The observations of a context, not counting those of a pair whose counter is already full. */
  function Support(log: seq<Event>, context: bv64): nat {
    if log == [] then 0
    else
      var before, p := log[..|log| - 1], log[|log| - 1].pair;
      Support(before, context) + (if p.context == context && Freq(before, p) < COUNT_MAX then 1 else 0)
  }

  /** All observations of a context. */
  function Times(log: seq<Event>, context: bv64): nat {
    if log == [] then 0
    else Times(log[..|log| - 1], context) + (if log[|log| - 1].pair.context == context then 1 else 0)
  }

  lemma {:induction false} FreqBound(log: seq<Event>, p: Pair)
    ensures Freq(log, p) <= |log|
  {
    if log != [] {
      FreqBound(log[..|log| - 1], p);
    }
  }

  /** As long as no counter can be full, the support is the exact number of observations. */
  lemma {:induction false} SupportCounts(log: seq<Event>, context: bv64)
    requires |log| <= COUNT_MAX
    ensures Support(log, context) == Times(log, context)
  {
    if log != [] {
      SupportCounts(log[..|log| - 1], context);
      FreqBound(log[..|log| - 1], log[|log| - 1].pair);
    }
  }

  /** The different pairs observed that live in set `s`. */
  function PairsIn(log: seq<Event>, s: nat): set<Pair> {
    if log == [] then {}
    else
      var p := log[|log| - 1].pair;
      PairsIn(log[..|log| - 1], s) + (if SetIndex(p.context) == s then {p} else {})
  }

  function PairOf(e: Entry): Pair {
    Pair(e.context, e.candidate)
  }

  function SetOf(p: Pair): (s: nat)
    ensures s < SETS
  {
    SetIndex(p.context)
  }

  lemma {:induction false} Observed(log: seq<Event>, p: Pair)
    ensures Freq(log, p) > 0 <==> p in PairsIn(log, SetOf(p))
    ensures forall q, s :: q in PairsIn(log, s) ==> SetOf(q) == s
  {
    hide SetIndex;
    if log != [] {
      Observed(log[..|log| - 1], p);
    }
  }

  // ----- One set at a time

  /** The four ways of a set. */
  function Ways(t: Table, s: nat): (ways: seq<Entry>)
    requires s < SETS
    ensures |ways| == WAYS
  {
    t[WAYS * s..WAYS * s + WAYS]
  }

  predicate Stores(e: Entry, p: Pair) {
    e.used && PairOf(e) == p
  }

  predicate Absent(ways: seq<Entry>, p: Pair) {
    forall w :: 0 <= w < |ways| ==> !Stores(ways[w], p)
  }

  predicate Full(ways: seq<Entry>) {
    forall w :: 0 <= w < |ways| ==> ways[w].used
  }

  /** An observation changes one way of the set of its pair: the way that stores the pair, else a
      vacant way, else, in a full set, the victim. */
  lemma Landing(t: Table, e: Event) returns (w: nat, written: Entry)
    ensures w < WAYS
    ensures Ways(Observe(t, e), SetOf(e.pair)) == Ways(t, SetOf(e.pair))[w := written]
    ensures forall s :: 0 <= s < SETS && s != SetOf(e.pair) ==> Ways(Observe(t, e), s) == Ways(t, s)
    ensures Stores(written, e.pair) && written.lastSequence == e.sequence
    ensures var ways := Ways(t, SetOf(e.pair));
            if Stores(ways[w], e.pair) then written.count == Min(ways[w].count + 1, COUNT_MAX)
            else written.count == 1 && Absent(ways, e.pair) && (ways[w].used ==> Full(ways))
  {
    hide SetIndex, VictimWay;
    var s, base := SetOf(e.pair), Base(e.pair.context);
    w := Target(t, e.pair.context, e.pair.candidate);
    var ways, t' := Ways(t, s), Observe(t, e);
    written := t'[base + w];
    assert ways[w] == t[base + w];
    if !Stores(ways[w], e.pair) {
      assert HitWay(t, base, e.pair.context, e.pair.candidate, 0) == WAYS;
      forall k | 0 <= k < WAYS ensures !Stores(ways[k], e.pair) {
        assert !Holds(Way(t, base, k), e.pair.context, e.pair.candidate);
      }
      if ways[w].used {
        forall k | 0 <= k < WAYS ensures ways[k].used {
          assert Way(t, base, k).used;
        }
      }
    }
  }

  // ----- What every table satisfies

  predicate Sound(ways: seq<Entry>, log: seq<Event>, s: nat) {
    && (forall w :: 0 <= w < |ways| && ways[w].used ==>
          SetOf(PairOf(ways[w])) == s && 1 <= ways[w].count <= SatFreq(log, PairOf(ways[w])))
    && (forall v, w :: 0 <= v < w < |ways| && ways[v].used && ways[w].used ==> PairOf(ways[v]) != PairOf(ways[w]))
  }

  /** However entries were evicted and reinserted: a pair is stored at most once, in its own set,
      with a count that never exceeds the true one. */
  lemma {:induction false} TableSound(log: seq<Event>, s: nat)
    requires s < SETS
    ensures Sound(Ways(Build(log), s), log, s)
  {
    hide SetIndex, Observe, Ways;
    if log == [] {
      EmptyWays(s);
    } else {
      var before, e := log[..|log| - 1], log[|log| - 1];
      TableSound(before, s);
      var w, written := Landing(Build(before), e);
      var ways := Ways(Build(before), s);
      if s == SetOf(e.pair) {
        assert ways[w].used && PairOf(ways[w]) == e.pair ==> written.count <= SatFreq(log, e.pair);
      }
    }
  }

  lemma EmptyWays(s: nat)
    requires s < SETS
    ensures forall w :: 0 <= w < WAYS ==> Ways(EmptyTable(), s)[w] == VACANT
  {
  }

  // ----- Exactness of a set

  /** Every pair observed in the set is stored with its true (saturated) frequency. */
  predicate SetExact(ways: seq<Entry>, log: seq<Event>, s: nat) {
    forall p :: p in PairsIn(log, s) ==> ExactFor(ways, log, p)
  }

  predicate ExactFor(ways: seq<Entry>, log: seq<Event>, p: Pair) {
    exists w :: 0 <= w < |ways| && Stores(ways[w], p) && ways[w].count == SatFreq(log, p)
  }

  lemma {:induction false} SubsetSize<T>(a: set<T>, b: set<T>)
    requires a <= b
    ensures |a| <= |b|
  {
    if a != {} {
      var x :| x in a;
      SubsetSize(a - {x}, b - {x});
    }
  }

  /** A pair can only displace another one when it is the fifth different pair of its set. */
  lemma EvictionNeedsFivePairs(log: seq<Event>, e: Event)
    requires var ways := Ways(Build(log), SetOf(e.pair)); Full(ways) && Absent(ways, e.pair)
    ensures |PairsIn(log + [e], SetOf(e.pair))| > WAYS
  {
    hide SetIndex, Observe, Ways, Build, Freq, SatFreq;
    var s := SetOf(e.pair);
    var ways := Ways(Build(log), s);
    TableSound(log, s);
    var p0, p1, p2, p3 := PairOf(ways[0]), PairOf(ways[1]), PairOf(ways[2]), PairOf(ways[3]);
    forall w | 0 <= w < WAYS ensures PairOf(ways[w]) in PairsIn(log, s) && PairOf(ways[w]) != e.pair {
      StoredIsObserved(log, ways[w]);
      assert !Stores(ways[w], e.pair);
    }
    PairsSnoc(log, e, s);
    SubsetSize({p0, p1, p2, p3, e.pair}, PairsIn(log + [e], s));
    assert |{p0, p1, p2, p3}| == 4 && e.pair !in {p0, p1, p2, p3};
    assert {p0, p1, p2, p3, e.pair} == {p0, p1, p2, p3} + {e.pair};
  }

  lemma NoEviction(log: seq<Event>, e: Event)
    requires |PairsIn(log + [e], SetOf(e.pair))| <= WAYS
    ensures var ways := Ways(Build(log), SetOf(e.pair)); !(Full(ways) && Absent(ways, e.pair))
  {
    hide SetIndex, Observe, Ways, Build, Freq, SatFreq, Full, Absent;
    var ways := Ways(Build(log), SetOf(e.pair));
    if Full(ways) && Absent(ways, e.pair) {
      EvictionNeedsFivePairs(log, e);
    }
  }

  lemma StoredIsObserved(log: seq<Event>, entry: Entry)
    requires 1 <= entry.count <= SatFreq(log, PairOf(entry))
    ensures PairOf(entry) in PairsIn(log, SetOf(PairOf(entry)))
  {
    hide SetIndex;
    Observed(log, PairOf(entry));
  }

  lemma PairsSnoc(log: seq<Event>, e: Event, s: nat)
    ensures PairsIn(log + [e], s) == PairsIn(log, s) + (if SetOf(e.pair) == s then {e.pair} else {})
    ensures Build(log + [e]) == Observe(Build(log), e)
    ensures forall p :: Freq(log + [e], p) == Freq(log, p) + (if p == e.pair then 1 else 0)
  {
    hide SetIndex, Observe;
    assert (log + [e])[..|log|] == log;
  }

  lemma ExactStep(log: seq<Event>, e: Event, s: nat)
    requires s < SETS && SetExact(Ways(Build(log), s), log, s)
    requires |PairsIn(log + [e], s)| <= WAYS
    ensures SetExact(Ways(Build(log + [e]), s), log + [e], s)
  {
    hide SetIndex, Observe, Ways, Build, PairsIn, Freq;
    var ways, ways' := Ways(Build(log), s), Ways(Build(log + [e]), s);
    PairsSnoc(log, e, s);
    var w, written := Landing(Build(log), e);
    if s == SetOf(e.pair) {
      NoEviction(log, e);
      WrittenIsExact(log, e, ways, w, written);
      assert Stores(ways'[w], e.pair);
    }
    forall p | p in PairsIn(log + [e], s) && p != e.pair ensures ExactFor(ways', log + [e], p) {
      var k :| 0 <= k < |ways| && Stores(ways[k], p) && ways[k].count == SatFreq(log, p);
      assert ways'[k] == ways[k];
    }
    if e.pair in PairsIn(log + [e], s) {
      Observed(log + [e], e.pair);
    }
  }

  lemma WrittenIsExact(log: seq<Event>, e: Event, ways: seq<Entry>, w: nat, written: Entry)
    requires ways == Ways(Build(log), SetOf(e.pair)) && w < WAYS
    requires SetExact(ways, log, SetOf(e.pair))
    requires if Stores(ways[w], e.pair) then written.count == Min(ways[w].count + 1, COUNT_MAX)
             else written.count == 1 && Absent(ways, e.pair)
    ensures written.count == SatFreq(log + [e], e.pair)
    ensures Stores(ways[w], e.pair) ==> ways[w].count == SatFreq(log, e.pair)
    ensures !Stores(ways[w], e.pair) ==> Freq(log, e.pair) == 0
  {
    hide SetIndex, Observe, Ways, Build, PairsIn, Freq;
    PairsSnoc(log, e, SetOf(e.pair));
    TableSound(log, SetOf(e.pair));
    Observed(log, e.pair);
    if Stores(ways[w], e.pair) {
      StoredIsObserved(log, ways[w]);
      assert ExactFor(ways, log, e.pair);
    }
  }

  lemma {:induction false} FewPairsAreExact(log: seq<Event>, s: nat)
    requires s < SETS && |PairsIn(log, s)| <= WAYS
    ensures SetExact(Ways(Build(log), s), log, s)
  {
    hide SetIndex, Observe, Ways, Build;
    if log != [] {
      var before, e := log[..|log| - 1], log[|log| - 1];
      SubsetSize(PairsIn(before, s), PairsIn(log, s));
      FewPairsAreExact(before, s);
      assert before + [e] == log;
      ExactStep(before, e, s);
    }
  }

  /** A set is exact if and only if no more than four different pairs were ever seen in it. */
  lemma ExactIff(log: seq<Event>, s: nat)
    requires s < SETS
    ensures SetExact(Ways(Build(log), s), log, s) <==> |PairsIn(log, s)| <= WAYS
  {
    hide SetIndex, Observe, Ways, Build, PairsIn, SatFreq;
    var ways := Ways(Build(log), s);
    if |PairsIn(log, s)| <= WAYS {
      FewPairsAreExact(log, s);
    }
    if SetExact(ways, log, s) {
      var stored := {PairOf(ways[0])} + {PairOf(ways[1])} + {PairOf(ways[2])} + {PairOf(ways[3])};
      forall p | p in PairsIn(log, s) ensures p in stored {
        assert ExactFor(ways, log, p);
      }
      SubsetSize(PairsIn(log, s), stored);
    }
  }

  // ----- What a prediction means

  lemma {:induction false} CountMeaning(t: Table, base: nat, context: bv64, n: nat)
    requires base + WAYS <= ENTRIES && n <= WAYS
    requires forall w :: 0 <= w < n && Votes(Way(t, base, w), context) ==> Way(t, base, w).count >= 1
    ensures var p := Count(t, base, context, n);
      && p.total >= p.best
      && (forall w :: 0 <= w < n && Votes(Way(t, base, w), context) ==>
            && Way(t, base, w).count <= p.best
            && (Way(t, base, w).count == p.best ==> p.candidate <= Way(t, base, w).candidate))
      && (p.best > 0 ==> exists w :: 0 <= w < n && Votes(Way(t, base, w), context)
                                   && Way(t, base, w).count == p.best && Way(t, base, w).candidate == p.candidate)
  {
    if n > 0 {
      CountMeaning(t, base, context, n - 1);
    }
  }

  function Share(e: Entry, context: bv64): nat {
    if Votes(e, context) then e.count else 0
  }

  function Total(ways: seq<Entry>, context: bv64): nat {
    if ways == [] then 0 else Total(ways[..|ways| - 1], context) + Share(ways[|ways| - 1], context)
  }

  lemma {:induction false} TotalAfter(ways: seq<Entry>, w: nat, e: Entry, context: bv64)
    requires w < |ways|
    ensures Total(ways[w := e], context) == Total(ways, context) - Share(ways[w], context) + Share(e, context)
    decreases |ways|
  {
    var last := |ways| - 1;
    if w == last {
      assert ways[w := e][..last] == ways[..last];
    } else {
      assert ways[w := e][..last] == ways[..last][w := e];
      TotalAfter(ways[..last], w, e, context);
    }
  }

  lemma {:induction false} CountTotal(t: Table, base: nat, context: bv64, n: nat)
    requires base + WAYS <= ENTRIES && n <= WAYS
    ensures Count(t, base, context, n).total == Total(t[base..base + n], context)
  {
    if n > 0 {
      CountTotal(t, base, context, n - 1);
      assert t[base..base + n][..n - 1] == t[base..base + n - 1];
    }
  }

  lemma TotalStep(log: seq<Event>, e: Event, context: bv64)
    requires |PairsIn(log + [e], SetIndex(context))| <= WAYS
    ensures Total(Ways(Build(log + [e]), SetIndex(context)), context)
         == Total(Ways(Build(log), SetIndex(context)), context)
          + (if e.pair.context == context && Freq(log, e.pair) < COUNT_MAX then 1 else 0)
  {
    hide SetIndex, Observe, Ways, Build, Freq, PairsIn, Total;
    var s := SetIndex(context);
    var ways := Ways(Build(log), s);
    PairsSnoc(log, e, s);
    SubsetSize(PairsIn(log, s), PairsIn(log + [e], s));
    var w, written := Landing(Build(log), e);
    if SetOf(e.pair) == s {
      NoEviction(log, e);
      FewPairsAreExact(log, s);
      WrittenIsExact(log, e, ways, w, written);
      TotalAfter(ways, w, written, context);
    }
  }

  /** The total of the ways is the number of observations of the context. */
  lemma {:induction false} TotalIsSupport(log: seq<Event>, context: bv64)
    requires |PairsIn(log, SetIndex(context))| <= WAYS
    ensures Total(Ways(Build(log), SetIndex(context)), context) == Support(log, context)
  {
    hide SetIndex, Observe, Ways, Build, Freq, PairsIn, Total;
    if log == [] {
      NothingVotes(SetIndex(context), context);
    } else {
      var before, e := log[..|log| - 1], log[|log| - 1];
      assert before + [e] == log;
      PairsSnoc(before, e, SetIndex(context));
      SubsetSize(PairsIn(before, SetIndex(context)), PairsIn(log, SetIndex(context)));
      TotalIsSupport(before, context);
      TotalStep(before, e, context);
    }
  }

  lemma NothingVotes(s: nat, context: bv64)
    requires s < SETS
    ensures Total(Ways(Build([]), s), context) == 0
  {
    EmptyWays(s);
    var ways := Ways(EmptyTable(), s);
    assert Total(ways[..0], context) == 0;
    assert ways[..2][..1] == ways[..1] && ways[..3][..2] == ways[..2] && ways[..4] == ways && ways[..1][..0] == ways[..0];
    assert Total(ways[..1], context) == 0;
    assert Total(ways[..2], context) == 0;
    assert Total(ways[..3], context) == 0;
  }

  /** `best` is the most frequent candidate of the context, the lowest identifier among equals. */
  predicate MostFrequent(log: seq<Event>, context: bv64, best: u32) {
    && Freq(log, Pair(context, best)) > 0
    && forall c: u32 ::
         && SatFreq(log, Pair(context, c)) <= SatFreq(log, Pair(context, best))
         && (SatFreq(log, Pair(context, c)) == SatFreq(log, Pair(context, best)) ==> best <= c)
  }

  /** While at most four different pairs were seen in the set of a context, a prediction is exact
      counting: the most frequent candidate, the number of observations behind it, and the share
      of the candidate among them rounded down. */
  lemma PredictionIsExact(log: seq<Event>, context: bv64)
    requires |PairsIn(log, SetIndex(context))| <= WAYS
    ensures var r := Predict(Build(log), context);
      && (r == NoPrediction <==> forall c: u32 :: Freq(log, Pair(context, c)) == 0)
      && (r.Predicted? ==>
            && MostFrequent(log, context, r.candidate)
            && r.support == Min(Support(log, context), COUNT_MAX)
            && Support(log, context) > 0
            && r.confidence == SatFreq(log, Pair(context, r.candidate)) * 65535 / Support(log, context)
            && r.confidence <= 65535)
  {
    hide SetIndex, Observe, Build, Freq, PairsIn, Count, Support;
    var t, base, s := Build(log), Base(context), SetIndex(context);
    var p := Count(t, base, context, WAYS);
    VotesAreExact(log, context);
    TotalIsSupport(log, context);
    CountTotal(t, base, context, WAYS);
    CountMeaning(t, base, context, WAYS);
    forall c: u32
      ensures SatFreq(log, Pair(context, c)) <= p.best
      ensures SatFreq(log, Pair(context, c)) == p.best > 0 ==> p.candidate <= c
    {
      if Freq(log, Pair(context, c)) > 0 {
        var w := VoteOf(log, context, c);
      }
    }
    if p.best > 0 {
      ShareOfTotal(p.best, p.total);
    }
  }

  /** Every way that votes carries the true frequency of its pair. */
  lemma VotesAreExact(log: seq<Event>, context: bv64)
    requires |PairsIn(log, SetIndex(context))| <= WAYS
    ensures forall w :: 0 <= w < WAYS && Votes(Way(Build(log), Base(context), w), context) ==>
      var e := Way(Build(log), Base(context), w); e.count >= 1 && e.count == SatFreq(log, Pair(context, e.candidate))
  {
    hide SetIndex, Observe, Build, Freq, PairsIn;
    var s := SetIndex(context);
    var ways := Ways(Build(log), s);
    TableSound(log, s);
    FewPairsAreExact(log, s);
    forall w | 0 <= w < WAYS && Votes(ways[w], context)
      ensures ways[w].count >= 1 && ways[w].count == SatFreq(log, Pair(context, ways[w].candidate))
    {
      StoredIsObserved(log, ways[w]);
      assert ExactFor(ways, log, PairOf(ways[w]));
    }
    assert forall w :: 0 <= w < WAYS ==> Way(Build(log), Base(context), w) == ways[w];
  }

  lemma VoteOf(log: seq<Event>, context: bv64, c: u32) returns (w: nat)
    requires |PairsIn(log, SetIndex(context))| <= WAYS
    requires Freq(log, Pair(context, c)) > 0
    ensures w < WAYS
    ensures var e := Way(Build(log), Base(context), w);
            Votes(e, context) && e.candidate == c && e.count == SatFreq(log, Pair(context, c))
  {
    hide SetIndex, Observe, Build, Freq, PairsIn;
    Observed(log, Pair(context, c));
    FewPairsAreExact(log, SetIndex(context));
    var ways := Ways(Build(log), SetIndex(context));
    w :| 0 <= w < |ways| && Stores(ways[w], Pair(context, c)) && ways[w].count == SatFreq(log, Pair(context, c));
  }

  lemma ShareOfTotal(best: nat, total: nat)
    requires 0 < best <= total
    ensures 0 <= best * 65535 / total <= 65535
  {
  }
}
