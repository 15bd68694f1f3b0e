/** The learning runtime in memory: the mode machine, its validation table and the store it drives. */
module LearningRuntime {
  import opened Bytes
  import opened Predictor
  import opened RflFormat
  import opened LearningModel
  import opened StoreSpec
  import opened RuntimeSpec
  import LearningStore
  import Neon4096
  import Ratio
  import opened Arith

  const MIN_SUPPORT: nat := 4096
  const MAX_ERROR_PPM: nat := 1000
  const MIN_CONFIDENCE: nat := 65469
  const MAX_P99_NS: nat := 250_000
  const MAX_MEMORY: nat := 4 * 1024 * 1024

  class Learner {
    var initialized: bool
    var mode: RuntimeMode
    const validation: array<Check>
    var contextsUsed: nat
    var tally: Tally
    const store: LearningStore.Store

    ghost predicate Valid()
      reads this, validation, store, store.predictor, store.slab, store.samples
    {
      validation.Length == ENTRIES && store.Valid()
    }

    ghost function Now(): Runtime
      requires Valid()
      reads this, validation, store, store.predictor, store.slab, store.samples
    {
      RuntimeSpec.Runtime(initialized, mode, validation[..], contextsUsed, tally, store.State())
    }

    constructor (bytes: seq<byte>)
      ensures Valid() && Now() == Blank(Closed(bytes))
      ensures fresh(validation) && fresh(store) && fresh(store.predictor) && fresh(store.slab) && fresh(store.samples)
    {
      initialized, mode, contextsUsed, tally := false, OFF, 0, NO_TALLY;
      validation := new Check[ENTRIES](_ => UNCHECKED);
      store := new LearningStore.Store(bytes);
      new;
      assert validation[..] == NoChecks();
    }

    method ResetValidation()
      requires Valid()
      modifies this, validation
      ensures Valid() && Now() == Unvalidated(old(Now()))
    {
      forall i | 0 <= i < ENTRIES {
        validation[i] := UNCHECKED;
      }
      contextsUsed, tally := 0, NO_TALLY;
      assert validation[..] == NoChecks();
      assert store.predictor[..] == old(store.predictor[..]);
      assert store.slab[..] == old(store.slab[..]);
      assert store.samples[..] == old(store.samples[..]);
    }

    /** The entry of the context, else the first vacant way of its set, else the least used one. */
    method FindSlot(context: bv64) returns (i: nat)
      requires validation.Length == ENTRIES
      ensures i == Slot(validation[..], context)
    {
      hide SetIndex, Lesser, Of;
      ghost var t: Checks := validation[..];
      var base := Base(context);
      var unused, victim := WAYS, WAYS;
      var way := 0;
      while way < WAYS
        invariant 0 <= way <= WAYS
        invariant KnownWay(t, base, context, 0) == KnownWay(t, base, context, way)
        invariant unused == (if VacantWay(t, base, 0) < way then VacantWay(t, base, 0) else WAYS)
        invariant unused == WAYS ==> VacantWay(t, base, 0) == VacantWay(t, base, way)
        invariant way == 0 ==> victim == WAYS
        invariant way > 0 ==> victim == LeastWay(t, base, way)
      {
        var entry := validation[base + way];
        assert entry == At(t, base, way);
        if Of(entry, context) {
          return base + way;
        }
        if !entry.used && unused == WAYS {
          unused := way;
        }
        if victim == WAYS || Lesser(entry, validation[base + victim]) {
          victim := way;
        }
        way := way + 1;
      }
      i := base + if unused < WAYS then unused else victim;
    }

    method NoteOutcome(context: bv64, right: bool)
      requires Valid()
      modifies this`contextsUsed, validation
      ensures Valid() && store.State() == old(store.State())
      ensures validation[..] == Noted(old(validation[..]), context, tally.observations, right)
      ensures contextsUsed == old(contextsUsed + (if validation[..][Slot(validation[..], context)].used then 0 else 1))
    {
      hide Slot, Scored, Claimed;
      var i := FindSlot(context);
      if !validation[i].used {
        contextsUsed := contextsUsed + 1;
      }
      ghost var before := validation[..];
      validation[i] := Scored(Claimed(validation[i], context), tally.observations, right);
      assert validation[..] == before[i := Scored(Claimed(before[i], context), tally.observations, right)];
      assert store.predictor[..] == old(store.predictor[..]);
      assert store.slab[..] == old(store.slab[..]);
      assert store.samples[..] == old(store.samples[..]);
    }

    /** Score the frozen model on one sample. */
    method ValidateSample(context: bv64, candidate: u32) returns (rc: Status)
      requires Valid() && initialized && mode == VALIDATE
      modifies this, validation
      ensures Valid() && (rc, Now()) == ValidateOne(old(Now()), context, candidate)
    {
      hide Noted, PredictNow, Slot;
      tally := tally.(observations := tally.observations + 1);
      var p;
      rc, p := store.PredictFor(context);
      if rc == ErrCapacity {
        tally := tally.(misses := tally.misses + 1);
        return Ok;
      }
      if rc != Ok || p == NoPrediction {
        return;
      }
      var right := p.candidate == candidate;
      NoteOutcome(context, right);
      tally := tally.(predictions := tally.predictions + 1);
      if right {
        tally := tally.(correct := tally.correct + 1);
      } else {
        tally := tally.(incorrect := tally.incorrect + 1);
      }
    }

    method Observe(input: Input, endedNs: nat, io: Io) returns (rc: Status)
      requires Valid()
      modifies this, validation, store, store.predictor, store.slab, store.samples
      ensures Valid() && (rc, Now()) == RuntimeSpec.Observe(old(Now()), input, endedNs, io)
    {
      hide ValidateOne, StoreSpec.Observe;
      if !initialized || mode == OFF || mode == RUNTIME_FROZEN {
        return ErrState;
      }
      if mode != VALIDATE {
        rc := store.Observe(input, endedNs, io);
        return;
      }
      rc := ValidateSample(input.context, input.candidate);
    }

    method SetMode(newMode: nat, io: Io, again: Io) returns (rc: Status)
      requires Valid()
      modifies this, validation, store
      ensures Valid() && (rc, Now()) == RuntimeSpec.SetMode(old(Now()), newMode, io, again)
    {
      hide StoreSpec.SetMode, FlushNow, NoChecks;
      if newMode > RUNTIME_FROZEN {
        return ErrArg;
      }
      if !initialized {
        return ErrState;
      }
      if newMode == VALIDATE {
        rc := store.FlushStore(io);
        if rc == Ok {
          rc := store.SetMode(FROZEN, again);
        }
        if rc == Ok && mode != VALIDATE {
          ResetValidation();
        }
      } else if newMode == RUNTIME_FROZEN {
        rc := store.SetMode(FROZEN, io);
      } else {
        rc := store.SetMode(newMode, io);
      }
      if rc == Ok {
        mode := newMode;
      }
    }

    method Clear()
      requires Valid()
      modifies this, validation
      ensures Valid() && Now() == Blank(old(store.State()))
    {
      initialized, mode := false, OFF;
      ResetValidation();
    }

    /** The store is opened first, then the page kernel is probed; the probe cannot fail. */
    method Open(canOpen: bool, nowNs: u64, io: Io, neonCompiled: bool) returns (rc: Status)
      requires Valid()
      modifies this, validation, store, store.predictor, store.slab, store.samples
      ensures Valid() && (rc, Now()) == RuntimeSpec.Open(old(Now()), canOpen, nowNs, io, true, io)
    {
      hide StoreSpec.Init, Blank;
      if initialized {
        return ErrState;
      }
      Clear();
      rc := store.Init(DEFAULT_CONFIG, canOpen, nowNs, io);
      if rc == Ok {
        var probe := Neon4096.RuntimeProbe(neonCompiled);
        assert probe == Neon4096.Ok;
        initialized := true;
      }
      BlankParts(old(store.State()), store.State());
    }

    method Flush(io: Io) returns (rc: Status)
      requires Valid()
      modifies store
      ensures Valid() && (rc, Now()) == RuntimeSpec.Flush(old(Now()), io)
    {
      hide FlushNow;
      if !initialized {
        return ErrState;
      }
      rc := store.FlushStore(io);
    }

    method ResetVolatile() returns (rc: Status)
      requires Valid()
      modifies this, validation, store, store.predictor
      ensures Valid() && (rc, Now()) == RuntimeSpec.ResetVolatile(old(Now()))
    {
      hide StoreSpec.ResetVolatile, NoChecks;
      if !initialized || (mode != OFF && mode != RUNTIME_FROZEN) {
        return ErrState;
      }
      rc := store.ResetVolatile();
      if rc == Ok {
        ResetValidation();
      }
    }

    method Close(io: Io, closed: bool) returns (rc: Status)
      requires Valid()
      modifies this, validation, store, store.predictor, store.slab, store.samples
      ensures Valid() && (rc, Now()) == RuntimeSpec.Close(old(Now()), io, closed)
    {
      hide StoreSpec.Close, Blank;
      if !initialized {
        return ErrState;
      }
      rc := store.Close(io, closed);
      Clear();
    }

    /** How many contexts qualify, given the resources the store reports. */
    method CountCandidates(p99Ns: nat, highWater: nat) returns (eligible: nat)
      requires validation.Length == ENTRIES
      ensures eligible == if p99Ns <= 250_000 && highWater <= 4_194_304 then Qualifying(validation[..]) else 0
    {
      hide Qualifies;
      if p99Ns > MAX_P99_NS || highWater > MAX_MEMORY {
        return 0;
      }
      eligible := 0;
      for i := 0 to ENTRIES
        invariant eligible == Qualifying(validation[..i])
      {
        var counted := IsCandidate(validation[i]);
        assert validation[..i + 1][..i] == validation[..i];
        if counted {
          eligible := eligible + 1;
        }
      }
      assert validation[..ENTRIES] == validation[..];
    }
  }

  lemma BlankParts(a: State, b: State)
    ensures Blank(a).(store := b) == Blank(b)
  {
  }

  // ----- Candidates

  /** Enough support, an error rate below 1001 millionths and a success rate of at least 65469/65535,
      as exact ratios. */
  predicate Qualifies(c: Check) {
    && c.used && c.predictions >= MIN_SUPPORT
    && c.incorrect * 1_000_000 < (MAX_ERROR_PPM + 1) * c.predictions
    && c.correct * 65535 >= MIN_CONFIDENCE * c.predictions
  }

  function Qualifying(t: seq<Check>): nat {
    if t == [] then 0 else Qualifying(t[..|t| - 1]) + (if Qualifies(t[|t| - 1]) then 1 else 0)
  }

  /** The fixed-point ratios decide the exact condition, also where counters have saturated. */
  method IsCandidate(c: Check) returns (counted: bool)
    ensures counted == Qualifies(c)
  {
    if !c.used || c.predictions < MIN_SUPPORT {
      return false;
    }
    var error := Ratio.RatioScaled(c.incorrect as Ratio.u64, c.predictions as Ratio.u64, 1_000_000);
    var confidence := Ratio.RatioScaled(c.correct as Ratio.u64, c.predictions as Ratio.u64, 65535);
    ErrorBound(c.incorrect, c.predictions);
    ConfidenceBound(c.correct, c.predictions);
    counted := error as int <= MAX_ERROR_PPM && confidence as int >= MIN_CONFIDENCE;
  }

  lemma ErrorBound(incorrect: nat, predictions: nat)
    requires predictions > 0
    ensures Ratio.Scaled(incorrect, predictions, 1_000_000) <= MAX_ERROR_PPM
       <==> incorrect * 1_000_000 < (MAX_ERROR_PPM + 1) * predictions
  {
    QuotientBelow(incorrect * 1_000_000, predictions, MAX_ERROR_PPM + 1);
  }

  lemma ConfidenceBound(correct: nat, predictions: nat)
    requires predictions > 0
    ensures Ratio.Scaled(correct, predictions, 65535) >= MIN_CONFIDENCE
       <==> correct * 65535 >= MIN_CONFIDENCE * predictions
  {
    QuotientBelow(correct * 65535, predictions, MIN_CONFIDENCE);
  }
}
