/** One context that is always followed by the same candidate: what learning and validating it come to, for
    every number of observations. */
module StableContext {
  import opened Arith
  import opened Bytes
  import opened Predictor
  import opened PredictorExact
  import opened LearningModel
  import opened RuntimeSpec
  import opened LearningRuntime
  import opened ValidationRuns

  predicate Only(log: seq<Event>, p: Pair) {
    forall i :: 0 <= i < |log| ==> log[i].pair == p
  }

  lemma {:induction false} OnlyCounts(log: seq<Event>, p: Pair)
    requires Only(log, p)
    ensures Freq(log, p) == |log| && Support(log, p.context) == Min(|log|, COUNT_MAX)
    ensures forall q :: q != p ==> Freq(log, q) == 0
    ensures PairsIn(log, SetIndex(p.context)) <= {p}
    decreases |log|
  {
    hide SetIndex;
    if log != [] {
      assert Only(log[..|log| - 1], p);
      OnlyCounts(log[..|log| - 1], p);
    }
  }

  lemma WholeShare(n: nat)
    requires n > 0
    ensures n * 65535 / n == 65535
  {
    DivisionUnique(65535, 0, n, n * 65535);
  }

  /** The candidate is predicted with full confidence, and every observation supports it. */
  lemma StablePrediction(log: seq<Event>, p: Pair)
    requires Only(log, p)
    ensures Predict(Build(log), p.context)
         == if log == [] then NoPrediction else Predicted(p.candidate, 65535, Min(|log|, 0xffff_ffff))
  {
    hide SetIndex, Build, Predict, PairsIn, Freq, Support, MostFrequent;
    OnlyCounts(log, p);
    SubsetSize(PairsIn(log, SetIndex(p.context)), {p});
    PredictionIsExact(log, p.context);
    var r := Predict(Build(log), p.context);
    if log == [] {
      assert r == NoPrediction;
    } else {
      assert Pair(p.context, p.candidate) == p;
      OnlyCandidate(log, p, r);
      WholeShare(Min(|log|, COUNT_MAX));
    }
  }

  lemma OnlyCandidate(log: seq<Event>, p: Pair, r: Prediction)
    requires Only(log, p) && log != [] && r.Predicted? && MostFrequent(log, p.context, r.candidate)
    ensures r.candidate == p.candidate && SatFreq(log, Pair(p.context, r.candidate)) == Min(|log|, COUNT_MAX)
  {
    hide SetIndex, Freq, PairsIn, Support;
    OnlyCounts(log, p);
  }

  // ----- Learning

  /** The model after observing `inputs` in a mode that learns. */
  function Learnt(mode: Mode, inputs: seq<Input>): Model
    decreases |inputs|
  {
    if inputs == [] then FreshModel()
    else LearningModel.Observed(Learnt(mode, inputs[..|inputs| - 1]), mode, inputs[|inputs| - 1])
  }

  function Events(mode: Mode, inputs: seq<Input>): seq<Event>
    decreases |inputs|
  {
    if inputs == [] then []
    else
      var before, last := inputs[..|inputs| - 1], inputs[|inputs| - 1];
      Events(mode, before) + [Event(Pair(last.context, last.candidate), Learnt(mode, before).nextSequence, last.cost)]
  }

  predicate Stable(inputs: seq<Input>, p: Pair) {
    forall i :: 0 <= i < |inputs| ==> Pair(inputs[i].context, inputs[i].candidate) == p
  }

  lemma OneLearnt(m: Model, input: Input, mode: Mode)
    requires mode in {2, 3}
    ensures var o, f := LearningModel.Observed(m, mode, input), Predict(m.table, input.context);
      && o.table == Learn(m.table, input.context, input.candidate, m.nextSequence, input.cost)
      && o.observations == m.observations + 1
      && o.predictions == m.predictions + (if f.Predicted? then 1 else 0)
      && o.correct == m.correct + (if f.Predicted? && f.candidate == input.candidate then 1 else 0)
      && o.incorrect == m.incorrect + (if f.Predicted? && f.candidate != input.candidate then 1 else 0)
  {
    hide Predict, Learn, LiveMemory;
  }

  lemma BuildNext(log: seq<Event>, e: Event)
    ensures Build(log + [e]) == PredictorExact.Observe(Build(log), e)
  {
    hide Learn;
    assert (log + [e])[..|log|] == log;
  }

  /** After the first of `n` observations there is nothing to predict from; all the others are predicted, and
      all of them right. */
  lemma {:induction false} StableLearning(mode: Mode, inputs: seq<Input>, p: Pair)
    requires mode in {2, 3} && Stable(inputs, p)
    ensures var m, n := Learnt(mode, inputs), |inputs|;
      && m.table == Build(Events(mode, inputs)) && Only(Events(mode, inputs), p) && |Events(mode, inputs)| == n
      && m.observations == n && m.incorrect == 0
      && m.predictions == m.correct == (if n == 0 then 0 else n - 1)
    decreases |inputs|
  {
    hide Learn, LearningModel.Observed, Predict, Build;
    if inputs == [] {
      FreshCounts();
    } else {
      var before, last := inputs[..|inputs| - 1], inputs[|inputs| - 1];
      assert Pair(last.context, last.candidate) == p;
      StableLearning(mode, before, p);
      StablePrediction(Events(mode, before), p);
      OneLearnt(Learnt(mode, before), last, mode);
      BuildNext(Events(mode, before), Event(p, Learnt(mode, before).nextSequence, last.cost));
    }
  }

  lemma FreshCounts()
    ensures var m := FreshModel(); m.table == Build([]) && m.observations == m.predictions == m.correct == m.incorrect == 0
  {
  }

  // ----- Validating

  predicate Same(samples: seq<Sample>, p: Pair) {
    forall i :: 0 <= i < |samples| ==> samples[i] == Sample(p.context, p.candidate)
  }

  lemma {:induction false} StableScore(log: seq<Event>, samples: seq<Sample>, p: Pair)
    requires Only(log, p) && log != [] && Same(samples, p)
    ensures Score(Build(log), samples) == Tally(|samples|, |samples|, |samples|, 0, 0)
    ensures About(samples, p.context) == samples
    ensures Predictable(Build(log), samples) == if samples == [] then {} else {p.context}
    decreases |samples|
  {
    hide Build, Predict;
    StablePrediction(log, p);
    if samples != [] {
      assert Same(samples[..|samples| - 1], p);
      StableScore(log, samples[..|samples| - 1], p);
    }
  }

  /** Every sample of a stable context counts as predicted and right, and the context is a candidate exactly
      after 4096 of them. */
  lemma StableCandidate(log: seq<Event>, samples: seq<Sample>, p: Pair)
    requires Only(log, p) && log != [] && Same(samples, p)
    ensures Score(Build(log), samples) == Tally(|samples|, |samples|, |samples|, 0, 0)
    ensures Eligible(Build(log), samples) == if |samples| >= 4096 then {p.context} else {}
  {
    hide Build, Score, About, Predictable;
    StableScore(log, samples, p);
  }
}
