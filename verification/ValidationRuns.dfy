/** The validation table over whole stays in the validating mode: what the entry of a context counts, and
    which contexts are reported as candidates. */
module ValidationRuns {
  import opened Predictor
  import opened StoreProofs
  import opened RuntimeSpec
  import opened LearningRuntime
  import PredictorExact
  import RflFormat

  /** The table that a fixed model fills on a list of samples. */
  function Marks(t: Table, samples: seq<Sample>): Checks
    decreases |samples|
  {
    if samples == [] then NoChecks()
    else
      var before, x := Marks(t, samples[..|samples| - 1]), samples[|samples| - 1];
      match Predict(t, x.context)
      case NoPrediction => before
      case Predicted(candidate, _, _) => Noted(before, x.context, |samples|, candidate == x.candidate)
  }

  /** The samples of one context. */
  function About(samples: seq<Sample>, c: bv64): seq<Sample>
    decreases |samples|
  {
    if samples == [] then []
    else
      var x := samples[|samples| - 1];
      About(samples[..|samples| - 1], c) + (if x.context == c then [x] else [])
  }

  /** The score of the model on the samples of one context. */
  function ScoreOf(t: Table, samples: seq<Sample>, c: bv64): Tally {
    Score(t, About(samples, c))
  }

  /** The contexts in set `s` for which the model had a prediction. */
  function Contexts(t: Table, samples: seq<Sample>, s: nat): set<bv64>
    decreases |samples|
  {
    if samples == [] then {}
    else
      var c := samples[|samples| - 1].context;
      Contexts(t, samples[..|samples| - 1], s)
      + (if SetIndex(c) == s && Predict(t, c).Predicted? then {c} else {})
  }

  function Sat(n: nat): nat {
    Min(n, COUNT_MAX)
  }

  // ----- One sample

  lemma {:induction false} ScoreSnoc(t: Table, samples: seq<Sample>, c: bv64)
    requires samples != []
    ensures var x, before := samples[|samples| - 1], samples[..|samples| - 1];
            ScoreOf(t, samples, c) == if x.context == c then ScoreOne(t, ScoreOf(t, before, c), x) else ScoreOf(t, before, c)
  {
    hide ScoreOne;
    var x, before := samples[|samples| - 1], samples[..|samples| - 1];
    if x.context == c {
      assert (About(before, c) + [x])[..|About(before, c)|] == About(before, c);
    } else {
      assert About(before, c) + [] == About(before, c);
    }
  }

  /** What an entry says about the score of its context. */
  predicate Counts(e: Check, score: Tally) {
    e.predictions == Sat(score.predictions) && e.correct == Sat(score.correct) && e.incorrect == Sat(score.incorrect)
  }

  predicate Below(e: Check, score: Tally) {
    1 <= e.predictions <= Sat(score.predictions) && e.correct <= Sat(score.correct) && e.incorrect <= Sat(score.incorrect)
  }

  /** A right outcome raises `correct`, a wrong one `incorrect`, each by one up to the largest counter, and
      both raise `predictions`; a new entry starts from nothing. */
  lemma OutcomeCounts(c: Check, context: bv64, now: nat, right: bool)
    ensures var e, was := Scored(Claimed(c, context), now, right), if Of(c, context) then c else UNCHECKED;
      && Of(e, context)
      && e.predictions == Sat(was.predictions + 1)
      && e.correct == Sat(was.correct + if right then 1 else 0)
      && e.incorrect == Sat(was.incorrect + if right then 0 else 1)
  {
  }

  function Row(t: Checks, s: nat): (row: seq<Check>)
    requires s < SETS
    ensures |row| == WAYS
  {
    t[WAYS * s..WAYS * s + WAYS]
  }

  predicate Lacks(row: seq<Check>, c: bv64) {
    forall w :: 0 <= w < |row| ==> !Of(row[w], c)
  }

  predicate Full(row: seq<Check>) {
    forall w :: 0 <= w < |row| ==> row[w].used
  }

  /** A noted outcome changes one way of the set of its context: the way of the context, else a vacant
      one, else, in a full set, another context loses its way. */
  lemma Landing(t: Checks, context: bv64, now: nat, right: bool) returns (w: nat)
    ensures w < WAYS
    ensures var row := Row(t, SetIndex(context));
      && Row(Noted(t, context, now, right), SetIndex(context)) == row[w := Scored(Claimed(row[w], context), now, right)]
      && (!Of(row[w], context) ==> Lacks(row, context) && (row[w].used ==> Full(row)))
    ensures forall s :: 0 <= s < SETS && s != SetIndex(context) ==> Row(Noted(t, context, now, right), s) == Row(t, s)
  {
    hide SetIndex, LeastWay, Scored, Claimed;
    var base, i := Base(context), Slot(t, context);
    w := i - base;
    var row := Row(t, SetIndex(context));
    assert row[w] == t[i];
    if !Of(row[w], context) {
      assert KnownWay(t, base, context, 0) == WAYS;
      forall k | 0 <= k < WAYS ensures !Of(row[k], context) {
        assert !Of(At(t, base, k), context);
      }
      if row[w].used {
        forall k | 0 <= k < WAYS ensures row[k].used {
          assert At(t, base, k).used;
        }
      }
    }
  }

  // ----- What every table satisfies

  predicate RowSound(row: seq<Check>, t: Table, samples: seq<Sample>, s: nat) {
    && (forall w :: 0 <= w < |row| && row[w].used ==>
          row[w].context in Contexts(t, samples, s) && Below(row[w], ScoreOf(t, samples, row[w].context)))
    && (forall v, w :: 0 <= v < w < |row| && row[v].used && row[w].used ==> row[v].context != row[w].context)
  }

  lemma ContextsSnoc(t: Table, samples: seq<Sample>, s: nat)
    requires samples != []
    ensures var c, before := samples[|samples| - 1].context, samples[..|samples| - 1];
            Contexts(t, samples, s) ==
              Contexts(t, before, s) + (if SetIndex(c) == s && Predict(t, c).Predicted? then {c} else {})
  {
  }

  predicate AtMost(a: Tally, b: Tally) {
    a.predictions <= b.predictions && a.correct <= b.correct && a.incorrect <= b.incorrect
  }

  lemma ScoreGrows(t: Table, samples: seq<Sample>, c: bv64)
    requires samples != []
    ensures AtMost(ScoreOf(t, samples[..|samples| - 1], c), ScoreOf(t, samples, c))
  {
    hide ScoreOf, Predict;
    ScoreSnoc(t, samples, c);
  }

  /** The sample noted last, seen from the score of its context. */
  lemma ScoreNoted(t: Table, samples: seq<Sample>, row: seq<Check>, w: nat, now: nat)
    requires samples != [] && w < |row|
    requires Predict(t, samples[|samples| - 1].context).Predicted?
    ensures var x, before := samples[|samples| - 1], samples[..|samples| - 1];
            var right := Predict(t, x.context).candidate == x.candidate;
            var e := Scored(Claimed(row[w], x.context), now, right);
      && Of(e, x.context)
      && (Of(row[w], x.context) && Below(row[w], ScoreOf(t, before, x.context)) ==> Below(e, ScoreOf(t, samples, x.context)))
      && (!Of(row[w], x.context) ==> Below(e, ScoreOf(t, samples, x.context)))
      && (Of(row[w], x.context) && Counts(row[w], ScoreOf(t, before, x.context)) ==> Counts(e, ScoreOf(t, samples, x.context)))
      && (!Of(row[w], x.context) && ScoreOf(t, before, x.context).predictions == 0
          && ScoreOf(t, before, x.context).correct == 0 && ScoreOf(t, before, x.context).incorrect == 0
          ==> Counts(e, ScoreOf(t, samples, x.context)))
  {
    hide ScoreOf, Predict, Scored, Claimed;
    var x := samples[|samples| - 1];
    ScoreSnoc(t, samples, x.context);
    OutcomeCounts(row[w], x.context, now, Predict(t, x.context).candidate == x.candidate);
  }

  /** However often contexts lost their way and came back: no context has two, and no counter of an entry
      exceeds the score of the model on the samples of its context. */
  lemma {:induction false} MarksSound(t: Table, samples: seq<Sample>, s: nat)
    requires s < SETS
    ensures RowSound(Row(Marks(t, samples), s), t, samples, s)
    decreases |samples|
  {
    hide SetIndex, Noted, Row, Predict, ScoreOf, Contexts, Below, AtMost;
    if samples == [] {
      NothingMarked(s);
    } else {
      var before, x := samples[..|samples| - 1], samples[|samples| - 1];
      MarksSound(t, before, s);
      ContextsSnoc(t, samples, s);
      forall c ensures AtMost(ScoreOf(t, before, c), ScoreOf(t, samples, c)) {
        ScoreGrows(t, samples, c);
      }
      BelowGrows();
      if Predict(t, x.context).Predicted? {
        var right := Predict(t, x.context).candidate == x.candidate;
        var w := Landing(Marks(t, before), x.context, |samples|, right);
        if s == SetIndex(x.context) {
          ScoreNoted(t, samples, Row(Marks(t, before), s), w, |samples|);
        }
      }
    }
  }

  lemma BelowGrows()
    ensures forall e, a, b :: Below(e, a) && AtMost(a, b) ==> Below(e, b)
  {
  }

  lemma NothingMarked(s: nat)
    requires s < SETS
    ensures forall w :: 0 <= w < WAYS ==> Row(NoChecks(), s)[w] == UNCHECKED
  {
  }

  // ----- Exactness of a set

  predicate ExactFor(row: seq<Check>, c: bv64, score: Tally) {
    exists w :: 0 <= w < |row| && Of(row[w], c) && Counts(row[w], score)
  }

  /** Every context in the set is stored with the score of the model on its samples. */
  predicate RowExact(row: seq<Check>, t: Table, samples: seq<Sample>, s: nat) {
    forall c :: c in Contexts(t, samples, s) ==> ExactFor(row, c, ScoreOf(t, samples, c))
  }

  lemma {:induction false} NotYetScored(t: Table, samples: seq<Sample>, c: bv64)
    requires c !in Contexts(t, samples, SetIndex(c)) || Predict(t, c) == NoPrediction
    ensures ScoreOf(t, samples, c).predictions == ScoreOf(t, samples, c).correct == ScoreOf(t, samples, c).incorrect == 0
    decreases |samples|
  {
    hide SetIndex, Predict, ScoreOf;
    if samples == [] {
      assert ScoreOf(t, samples, c) == NO_TALLY by { NoSamples(t, c); }
    } else {
      NotYetScored(t, samples[..|samples| - 1], c);
      ScoreSnoc(t, samples, c);
    }
  }

  lemma NoSamples(t: Table, c: bv64)
    ensures ScoreOf(t, [], c) == NO_TALLY
  {
  }

  /** A context loses its way only to the fifth context of the set. */
  lemma NoLoss(t: Table, samples: seq<Sample>, c: bv64)
    requires var s := SetIndex(c);
             |Contexts(t, samples, s) + {c}| <= WAYS && RowSound(Row(Marks(t, samples), s), t, samples, s)
    ensures var row := Row(Marks(t, samples), SetIndex(c)); !(Full(row) && Lacks(row, c))
  {
    hide SetIndex, Row, Marks, Contexts, ScoreOf, Below;
    var s := SetIndex(c);
    var row := Row(Marks(t, samples), s);
    if Full(row) && Lacks(row, c) {
      var c0, c1, c2, c3 := row[0].context, row[1].context, row[2].context, row[3].context;
      assert !Of(row[0], c) && !Of(row[1], c) && !Of(row[2], c) && !Of(row[3], c);
      PredictorExact.SubsetSize({c0, c1, c2, c3, c}, Contexts(t, samples, s) + {c});
    }
  }

  /** An entry of an exact row counts exactly. */
  lemma EntryCounts(row: seq<Check>, t: Table, samples: seq<Sample>, s: nat, w: nat)
    requires RowSound(row, t, samples, s) && RowExact(row, t, samples, s) && w < |row| && row[w].used
    ensures Counts(row[w], ScoreOf(t, samples, row[w].context))
  {
    hide SetIndex, Contexts, ScoreOf, Below, Counts;
    assert ExactFor(row, row[w].context, ScoreOf(t, samples, row[w].context));
  }

  lemma ExactStep(t: Table, samples: seq<Sample>, s: nat)
    requires s < SETS && samples != [] && |Contexts(t, samples, s)| <= WAYS
    requires RowExact(Row(Marks(t, samples[..|samples| - 1]), s), t, samples[..|samples| - 1], s)
    ensures RowExact(Row(Marks(t, samples), s), t, samples, s)
  {
    hide SetIndex, Noted, Row, Predict, ScoreOf, Contexts, Below, Counts, Scored, Claimed;
    var before, x := samples[..|samples| - 1], samples[|samples| - 1];
    var row := Row(Marks(t, before), s);
    ContextsSnoc(t, samples, s);
    MarksSound(t, before, s);
    forall c | c != x.context ensures ScoreOf(t, samples, c) == ScoreOf(t, before, c) {
      ScoreSnoc(t, samples, c);
    }
    if Predict(t, x.context) == NoPrediction {
      NotYetScored(t, samples, x.context);
      NotYetScored(t, before, x.context);
      forall c | c in Contexts(t, samples, s) ensures c != x.context {
        ContextsPredicted(t, samples, s, c);
      }
    } else {
      var right := Predict(t, x.context).candidate == x.candidate;
      var w := Landing(Marks(t, before), x.context, |samples|, right);
      if s == SetIndex(x.context) {
        LandsExactly(t, samples, w);
      } else {
        forall c | c in Contexts(t, samples, s) ensures c != x.context {
          ContextsPredicted(t, samples, s, c);
        }
      }
    }
  }

  lemma {:induction false} ContextsPredicted(t: Table, samples: seq<Sample>, s: nat, c: bv64)
    requires c in Contexts(t, samples, s)
    ensures SetIndex(c) == s && Predict(t, c).Predicted?
    decreases |samples|
  {
    hide SetIndex, Predict;
    if c in Contexts(t, samples[..|samples| - 1], s) {
      ContextsPredicted(t, samples[..|samples| - 1], s, c);
    }
  }

  lemma LandsExactly(t: Table, samples: seq<Sample>, w: nat)
    requires samples != [] && w < WAYS && Predict(t, samples[|samples| - 1].context).Predicted?
    requires var s := SetIndex(samples[|samples| - 1].context);
      && |Contexts(t, samples, s)| <= WAYS
      && RowExact(Row(Marks(t, samples[..|samples| - 1]), s), t, samples[..|samples| - 1], s)
    requires var x, before := samples[|samples| - 1], samples[..|samples| - 1];
             var row := Row(Marks(t, before), SetIndex(x.context));
             var right := Predict(t, x.context).candidate == x.candidate;
      && Row(Marks(t, samples), SetIndex(x.context)) == row[w := Scored(Claimed(row[w], x.context), |samples|, right)]
      && (!Of(row[w], x.context) ==> Lacks(row, x.context) && (row[w].used ==> Full(row)))
    ensures var s := SetIndex(samples[|samples| - 1].context); RowExact(Row(Marks(t, samples), s), t, samples, s)
  {
    hide SetIndex, Row, Marks, Predict, ScoreOf, Contexts, Below, Counts, Scored, Claimed;
    var before, x := samples[..|samples| - 1], samples[|samples| - 1];
    var s := SetIndex(x.context);
    var row, row' := Row(Marks(t, before), s), Row(Marks(t, samples), s);
    MarksSound(t, before, s);
    ContextsSnoc(t, samples, s);
    NoLoss(t, before, x.context);
    ScoreNoted(t, samples, row, w, |samples|);
    if Of(row[w], x.context) {
      EntryCounts(row, t, before, s, w);
    } else {
      assert x.context !in Contexts(t, before, s) by {
        assert forall k :: 0 <= k < |row| ==> !Of(row[k], x.context);
        assert x.context in Contexts(t, before, s) ==> ExactFor(row, x.context, ScoreOf(t, before, x.context));
      }
      NotYetScored(t, before, x.context);
    }
    assert Of(row'[w], x.context) && Counts(row'[w], ScoreOf(t, samples, x.context));
    forall c | c in Contexts(t, samples, s) && c != x.context ensures ExactFor(row', c, ScoreOf(t, samples, c)) {
      ScoreSnoc(t, samples, c);
      assert ExactFor(row, c, ScoreOf(t, before, c));
      var k :| 0 <= k < |row| && Of(row[k], c) && Counts(row[k], ScoreOf(t, before, c));
      assert row'[k] == row[k];
    }
  }

  lemma {:induction false} FewContextsAreExact(t: Table, samples: seq<Sample>, s: nat)
    requires s < SETS && |Contexts(t, samples, s)| <= WAYS
    ensures RowExact(Row(Marks(t, samples), s), t, samples, s)
    decreases |samples|
  {
    hide SetIndex, Noted, Row, Predict, ScoreOf, ExactFor;
    if samples != [] {
      PredictorExact.SubsetSize(Contexts(t, samples[..|samples| - 1], s), Contexts(t, samples, s));
      FewContextsAreExact(t, samples[..|samples| - 1], s);
      ExactStep(t, samples, s);
    }
  }

  /** The entries of a set are exact if and only if no more than four different contexts fell into it. */
  lemma ExactIff(t: Table, samples: seq<Sample>, s: nat)
    requires s < SETS
    ensures RowExact(Row(Marks(t, samples), s), t, samples, s) <==> |Contexts(t, samples, s)| <= WAYS
  {
    hide SetIndex, Row, Marks, Contexts, ScoreOf, Counts;
    var row := Row(Marks(t, samples), s);
    if |Contexts(t, samples, s)| <= WAYS {
      FewContextsAreExact(t, samples, s);
    }
    if RowExact(row, t, samples, s) {
      var stored := {row[0].context} + {row[1].context} + {row[2].context} + {row[3].context};
      forall c | c in Contexts(t, samples, s) ensures c in stored {
        assert ExactFor(row, c, ScoreOf(t, samples, c));
      }
      PredictorExact.SubsetSize(Contexts(t, samples, s), stored);
    }
  }

  // ----- Over a stay in the validating mode

  lemma ValidatingCallMarks(r: Runtime, call: Call)
    requires Consistent(r) && Validating(r) && Validating(Apply(r, call).1)
    ensures Apply(r, call).1.checks ==
      if !call.CallObserve? || Predict(r.store.model.table, call.input.context) == NoPrediction then r.checks
      else Noted(r.checks, call.input.context, r.tally.observations + 1,
                 Predict(r.store.model.table, call.input.context).candidate == call.input.candidate)
  {
    hide StoreSpec.FlushNow, StoreSpec.SetMode, Predict, Noted, TableOk, Occupied;
  }

  lemma {:induction false} ScoreObserves(t: Table, samples: seq<Sample>)
    ensures Score(t, samples).observations == |samples|
  {
    hide Predict;
    if samples != [] {
      ScoreObserves(t, samples[..|samples| - 1]);
    }
  }

  /** A stay in the validating mode that begins with nothing counted, as it does when the mode is entered
      from another one. */
  predicate FreshStay(r: Runtime, calls: seq<Call>, log: seq<RflFormat.Record>)
    ensures FreshStay(r, calls, log) ==> r.store.Open?
  {
    && OnDisk(r.store, log) && Consistent(r) && StaysValidating(r, calls)
    && r.tally == NO_TALLY && r.checks == NoChecks()
  }

  /** After a stay in the validating mode that began with an empty table, the table is the one that the
      model, as it was on entering the mode, fills on the samples observed. */
  lemma {:induction false} StayMarks(r: Runtime, calls: seq<Call>, log: seq<RflFormat.Record>)
    requires FreshStay(r, calls, log)
    ensures ApplyAll(r, calls).checks == Marks(r.store.model.table, Samples(calls))
    decreases |calls|
  {
    hide OnDisk, Apply, Consistent, Predict, ScoreOne, Noted;
    if calls != [] {
      var before, call := calls[..|calls| - 1], calls[|calls| - 1];
      StayMarks(r, before, log);
      ValidationScores(r, before, log);
      ScoreObserves(r.store.model.table, Samples(before));
      var log' := FrozenValidation(r, before, log);
      ValidatingCallMarks(ApplyAll(r, before), call);
      if call.CallObserve? {
        var x := Sample(call.input.context, call.input.candidate);
        assert (Samples(before) + [x])[..|Samples(before)|] == Samples(before);
      } else {
        assert Samples(calls) == Samples(before);
      }
    }
  }

  /** So after the stay the entry of a context, while at most four contexts fell into its set, holds the
      score of that model on the samples of the context; whatever happened, no entry claims more. */
  lemma ContextScores(r: Runtime, calls: seq<Call>, log: seq<RflFormat.Record>, s: nat)
    requires FreshStay(r, calls, log) && s < SETS
    ensures var t, samples, row := r.store.model.table, Samples(calls), Row(ApplyAll(r, calls).checks, s);
      && RowSound(row, t, samples, s)
      && (RowExact(row, t, samples, s) <==> |Contexts(t, samples, s)| <= WAYS)
  {
    hide FreshStay, ApplyAll, Marks, RowExact, RowSound, Contexts, Row;
    StayMarks(r, calls, log);
    MarksSound(r.store.model.table, Samples(calls), s);
    ExactIff(r.store.model.table, Samples(calls), s);
  }

  // ----- Which contexts are candidates

  /** All contexts for which the model had a prediction. */
  function Predictable(t: Table, samples: seq<Sample>): set<bv64>
    decreases |samples|
  {
    if samples == [] then {}
    else
      var c := samples[|samples| - 1].context;
      Predictable(t, samples[..|samples| - 1]) + (if Predict(t, c).Predicted? then {c} else {})
  }

  lemma {:induction false} PredictedIn(t: Table, samples: seq<Sample>, c: bv64)
    ensures c in Predictable(t, samples) <==> c in Contexts(t, samples, SetIndex(c))
    decreases |samples|
  {
    hide SetIndex, Predict;
    if samples != [] {
      PredictedIn(t, samples[..|samples| - 1], c);
    }
  }

  /** Enough samples, few enough wrong and enough right ones, by what 32-bit counters can show. */
  predicate Earned(score: Tally) {
    var predictions := Sat(score.predictions);
    && predictions >= MIN_SUPPORT
    && Sat(score.incorrect) * 1_000_000 < (MAX_ERROR_PPM + 1) * predictions
    && Sat(score.correct) * 65535 >= MIN_CONFIDENCE * predictions
  }

  function Eligible(t: Table, samples: seq<Sample>): set<bv64> {
    set c | c in Predictable(t, samples) && Earned(ScoreOf(t, samples, c))
  }

  function QualifyingContexts(checks: seq<Check>): set<bv64>
    decreases |checks|
  {
    if checks == [] then {}
    else
      var last := checks[|checks| - 1];
      QualifyingContexts(checks[..|checks| - 1]) + (if Qualifies(last) then {last.context} else {})
  }

  lemma {:induction false} QualifyingEntry(checks: seq<Check>, c: bv64)
    ensures c in QualifyingContexts(checks) <==> exists i :: 0 <= i < |checks| && Qualifies(checks[i]) && checks[i].context == c
    decreases |checks|
  {
    hide Qualifies;
    if checks != [] {
      var front, last := checks[..|checks| - 1], checks[|checks| - 1];
      QualifyingEntry(front, c);
      assert checks == front + [last];
    }
  }

  predicate Apart(checks: seq<Check>) {
    forall i, j :: 0 <= i < j < |checks| && checks[i].used && checks[j].used ==> checks[i].context != checks[j].context
  }

  lemma {:induction false} QualifyingSize(checks: seq<Check>)
    requires Apart(checks)
    ensures Qualifying(checks) == |QualifyingContexts(checks)|
    decreases |checks|
  {
    hide Qualifies;
    if checks != [] {
      var front, last := checks[..|checks| - 1], checks[|checks| - 1];
      QualifyingSize(front);
      QualifyingEntry(front, last.context);
      if Qualifies(last) {
        QualifiesUsed(last);
        forall i | 0 <= i < |front| && Qualifies(front[i]) ensures front[i].context != last.context {
          QualifiesUsed(front[i]);
          assert checks[i] == front[i];
        }
      }
    }
  }

  lemma CountsQualify(e: Check, score: Tally)
    requires e.used && Counts(e, score)
    ensures Qualifies(e) <==> Earned(score)
  {
  }

  lemma RowEntry(checks: Checks, i: nat)
    requires i < ENTRIES
    ensures i / WAYS < SETS && i % WAYS < WAYS && Row(checks, i / WAYS)[i % WAYS] == checks[i]
  {
  }

  lemma RowIndex(checks: Checks, s: nat, w: nat)
    requires s < SETS && w < WAYS
    ensures WAYS * s + w < ENTRIES && checks[WAYS * s + w] == Row(checks, s)[w]
  {
  }

  /** At most four contexts fell into every set. */
  predicate Uncrowded(t: Table, samples: seq<Sample>) {
    forall s :: 0 <= s < SETS ==> |Contexts(t, samples, s)| <= WAYS
  }

  /** The qualifying contexts of a table whose sets are all exact are those that earned it. */
  lemma QualifyingAreEligible(t: Table, samples: seq<Sample>)
    requires Uncrowded(t, samples)
    ensures QualifyingContexts(Marks(t, samples)) == Eligible(t, samples)
  {
    hide SetIndex, Row, Marks, Contexts, ScoreOf, Predictable, Qualifies, Earned, Counts, Below, QualifyingContexts;
    var checks := Marks(t, samples);
    forall c | c in QualifyingContexts(checks) ensures c in Eligible(t, samples) {
      QualifyingEntry(checks, c);
      var i :| 0 <= i < ENTRIES && Qualifies(checks[i]) && checks[i].context == c;
      var s := i / WAYS;
      RowEntry(checks, i);
      assert checks[i].used by { QualifiesUsed(checks[i]); }
      MarksSound(t, samples, s);
      FewContextsAreExact(t, samples, s);
      EntryCounts(Row(checks, s), t, samples, s, i % WAYS);
      CountsQualify(checks[i], ScoreOf(t, samples, c));
      ContextsPredicted(t, samples, s, c);
      PredictedIn(t, samples, c);
    }
    forall c | c in Eligible(t, samples) ensures c in QualifyingContexts(checks) {
      var s := SetIndex(c);
      PredictedIn(t, samples, c);
      FewContextsAreExact(t, samples, s);
      assert ExactFor(Row(checks, s), c, ScoreOf(t, samples, c));
      var w :| 0 <= w < WAYS && Of(Row(checks, s)[w], c) && Counts(Row(checks, s)[w], ScoreOf(t, samples, c));
      RowIndex(checks, s, w);
      CountsQualify(checks[WAYS * s + w], ScoreOf(t, samples, c));
      QualifyingEntry(checks, c);
    }
  }

  lemma QualifiesUsed(e: Check)
    ensures Qualifies(e) ==> e.used
  {
  }

  lemma StayKeepsApart(r: Runtime, calls: seq<Call>, log: seq<RflFormat.Record>)
    requires FreshStay(r, calls, log)
    ensures Apart(ApplyAll(r, calls).checks)
  {
    hide OnDisk, StaysValidating, ApplyAll, Consistent, Apart;
    var log' := FrozenValidation(r, calls, log);
    ConsistentTable(ApplyAll(r, calls));
  }

  lemma ConsistentTable(r: Runtime)
    requires Consistent(r)
    ensures Apart(r.checks)
  {
    hide SetIndex, Occupied;
  }

  /** What `CountCandidates` counts after a stay in the validating mode in which at most four contexts fell
      into every set: exactly the contexts whose samples the frozen model predicted often and well enough. */
  lemma CandidatesCounted(r: Runtime, calls: seq<Call>, log: seq<RflFormat.Record>)
    requires FreshStay(r, calls, log) && Uncrowded(r.store.model.table, Samples(calls))
    ensures Qualifying(ApplyAll(r, calls).checks) == |Eligible(r.store.model.table, Samples(calls))|
  {
    hide FreshStay, ApplyAll, Marks, Eligible, Uncrowded, Qualifying, QualifyingContexts, Apart;
    StayMarks(r, calls, log);
    StayKeepsApart(r, calls, log);
    QualifyingAreEligible(r.store.model.table, Samples(calls));
    QualifyingSize(ApplyAll(r, calls).checks);
  }
}
