/** The 256-set, 4-way frequency predictor: which candidate follows a context. */
module Predictor {
  import opened Bytes

  const SETS: nat := 256
  const WAYS: nat := 4
  const ENTRIES: nat := 1024
  const COUNT_MAX: nat := 0xffff_ffff

  datatype Entry = Entry(used: bool, context: bv64, candidate: u32, count: u32, lastSequence: nat, ewmaCost: nat)

  const VACANT: Entry := Entry(false, 0, 0, 0, 0, 0)

  type Table = t: seq<Entry> | |t| == ENTRIES witness seq(ENTRIES, _ => VACANT)

  function EmptyTable(): (t: Table)
    ensures forall i :: 0 <= i < ENTRIES ==> t[i] == VACANT
  {
    seq(ENTRIES, _ => VACANT)
  }

  datatype Prediction = NoPrediction | Predicted(candidate: u32, confidence: u16, support: u32)

  function SetIndex(context: bv64): (s: nat)
    ensures s < SETS
  {
    var mixed := (context ^ (context >> 33) ^ (context >> 17)) & 255;
    assert mixed < 256;
    mixed as nat
  }

  function Base(context: bv64): (b: nat)
    ensures b + WAYS <= ENTRIES && b == WAYS * SetIndex(context)
  {
    WAYS * SetIndex(context)
  }

  // ----- Update

  function Way(t: Table, base: nat, w: nat): Entry
    requires base + WAYS <= ENTRIES && w < WAYS
  {
    t[base + w]
  }

  predicate Holds(e: Entry, context: bv64, candidate: u32) {
    e.used && e.context == context && e.candidate == candidate
  }

  /** The first way from `w` on that holds the pair; `WAYS` when there is none. */
  function HitWay(t: Table, base: nat, context: bv64, candidate: u32, w: nat): (hit: nat)
    requires base + WAYS <= ENTRIES && w <= WAYS
    ensures w <= hit <= WAYS
    ensures hit < WAYS ==> Holds(Way(t, base, hit), context, candidate)
    ensures forall k :: w <= k < hit ==> !Holds(Way(t, base, k), context, candidate)
    decreases WAYS - w
  {
    if w == WAYS || Holds(Way(t, base, w), context, candidate) then w
    else HitWay(t, base, context, candidate, w + 1)
  }

  function UnusedWay(t: Table, base: nat, w: nat): (free: nat)
    requires base + WAYS <= ENTRIES && w <= WAYS
    ensures w <= free <= WAYS
    ensures free < WAYS ==> !Way(t, base, free).used
    ensures forall k :: w <= k < free ==> Way(t, base, k).used
    decreases WAYS - w
  {
    if w == WAYS || !Way(t, base, w).used then w else UnusedWay(t, base, w + 1)
  }

  /** Evicted earlier: fewer observations, then least recently observed. */
  predicate Weaker(a: Entry, b: Entry) {
    a.count < b.count || (a.count == b.count && a.lastSequence < b.lastSequence)
  }

  /** The first of the weakest among the first `n` ways. */
  function VictimWay(t: Table, base: nat, n: nat): (v: nat)
    requires base + WAYS <= ENTRIES && 0 < n <= WAYS
    ensures v < n
    ensures forall k :: 0 <= k < n ==> !Weaker(Way(t, base, k), Way(t, base, v))
    ensures forall k :: 0 <= k < v ==> Weaker(Way(t, base, v), Way(t, base, k))
  {
    if n == 1 then 0
    else
      var v := VictimWay(t, base, n - 1);
      if Weaker(Way(t, base, n - 1), Way(t, base, v)) then n - 1 else v
  }

  function Reinforced(e: Entry, sequence: nat, cost: u64): Entry {
    e.(count := if e.count < COUNT_MAX then e.count + 1 else e.count,
       lastSequence := sequence,
       ewmaCost := if e.ewmaCost == 0 then cost else (e.ewmaCost * 7 + cost) % U64 / 8)
  }

  function Target(t: Table, context: bv64, candidate: u32): (w: nat)
    ensures w < WAYS
  {
    var base := Base(context);
    var hit := HitWay(t, base, context, candidate, 0);
    var free := UnusedWay(t, base, 0);
    if hit < WAYS then hit else if free < WAYS then free else VictimWay(t, base, WAYS)
  }

  function Learn(t: Table, context: bv64, candidate: u32, sequence: nat, cost: u64): (t': Table)
  {
    var i := Base(context) + Target(t, context, candidate);
    t[i := if Holds(t[i], context, candidate) then Reinforced(t[i], sequence, cost)
           else Entry(true, context, candidate, 1, sequence, cost)]
  }

  /** How many entries are in use. */
  function InUse(t: seq<Entry>): nat {
    if t == [] then 0 else InUse(t[..|t| - 1]) + (if t[|t| - 1].used then 1 else 0)
  }

  lemma {:induction false} InUseAfter(t: seq<Entry>, i: nat, e: Entry)
    requires i < |t| && e.used
    ensures InUse(t[i := e]) == InUse(t) + (if t[i].used then 0 else 1)
    decreases |t|
  {
    var last := |t| - 1;
    if i == last {
      assert t[i := e][..last] == t[..last];
    } else {
      assert t[i := e][..last] == t[..last][i := e];
      InUseAfter(t[..last], i, e);
    }
  }

  /** One scan over the ways: a hit ends it at once, otherwise the first vacant way or the victim
      is chosen. */
  method FindWay(a: array<Entry>, context: bv64, candidate: u32) returns (target: nat, hit: bool)
    requires a.Length == ENTRIES
    ensures target == Target(a[..], context, candidate)
    ensures hit == Holds(a[Base(context) + target], context, candidate)
  {
    hide SetIndex, Weaker, Holds;
    ghost var t: Table := a[..];
    var base := Base(context);
    var unused, victim := WAYS, WAYS;
    var way := 0;
    while way < WAYS
      invariant 0 <= way <= WAYS
      invariant HitWay(t, base, context, candidate, 0) == HitWay(t, base, context, candidate, way)
      invariant unused == (if UnusedWay(t, base, 0) < way then UnusedWay(t, base, 0) else WAYS)
      invariant unused == WAYS ==> UnusedWay(t, base, 0) == UnusedWay(t, base, way)
      invariant way == 0 ==> victim == WAYS
      invariant way > 0 ==> victim == VictimWay(t, base, way)
    {
      var entry := a[base + way];
      assert entry == Way(t, base, way);
      if Holds(entry, context, candidate) {
        return way, true;
      }
      if !entry.used && unused == WAYS {
        unused := way;
      }
      if victim == WAYS || Weaker(entry, a[base + victim]) {
        victim := way;
      }
      way := way + 1;
    }
    target := if unused < WAYS then unused else victim;
    hit := false;
    assert !Holds(Way(t, base, target), context, candidate);
  }

  method LearnInPlace(a: array<Entry>, context: bv64, candidate: u32, sequence: nat, cost: u64)
    returns (grew: bool)
    requires a.Length == ENTRIES
    modifies a
    ensures a[..] == Learn(old(a[..]), context, candidate, sequence, cost)
    ensures InUse(a[..]) == InUse(old(a[..])) + (if grew then 1 else 0)
  {
    hide SetIndex, InUse, Reinforced, Target;
    ghost var t: Table := a[..];
    var target, hit := FindWay(a, context, candidate);
    var dst := Base(context) + target;
    var entry := if hit then Reinforced(a[dst], sequence, cost)
                 else Entry(true, context, candidate, 1, sequence, cost);
    assert entry.used by {
      ReinforcedUsed(a[dst], sequence, cost);
    }
    grew := !a[dst].used;
    InUseAfter(t, dst, entry);
    a[dst] := entry;
    assert a[..] == t[dst := entry];
  }

  lemma ReinforcedUsed(e: Entry, sequence: nat, cost: u64)
    ensures Reinforced(e, sequence, cost).used == e.used
  {
  }

  // ----- Prediction

  /** What the first `n` ways of a set say about a context. */
  datatype Poll = Poll(total: nat, best: nat, candidate: u32)

  predicate Votes(e: Entry, context: bv64) {
    e.used && e.context == context
  }

  function Count(t: Table, base: nat, context: bv64, n: nat): Poll
    requires base + WAYS <= ENTRIES && n <= WAYS
  {
    if n == 0 then Poll(0, 0, 0)
    else
      var p, e := Count(t, base, context, n - 1), Way(t, base, n - 1);
      if !Votes(e, context) then p
      else if e.count > p.best || (e.count == p.best && e.candidate < p.candidate) then
        Poll(p.total + e.count, e.count, e.candidate)
      else p.(total := p.total + e.count)
  }

  function Predict(t: Table, context: bv64): Prediction {
    var p := Count(t, Base(context), context, WAYS);
    if p.total == 0 || p.best == 0 then NoPrediction
    else Predicted(p.candidate, Min(p.best * 65535 / p.total, 65535), Min(p.total, COUNT_MAX))
  }

  function Min(a: int, b: int): int {
    if a < b then a else b
  }

  method PredictFrom(a: array<Entry>, context: bv64) returns (r: Prediction)
    requires a.Length == ENTRIES
    ensures r == Predict(a[..], context)
  {
    hide SetIndex;
    var base := Base(context);
    var total: nat, best: nat, candidate: u32 := 0, 0, 0;
    for way := 0 to WAYS
      invariant Count(a[..], base, context, way) == Poll(total, best, candidate)
    {
      var entry := a[base + way];
      if entry.used && entry.context == context {
        total := total + entry.count;
        if entry.count > best || (entry.count == best && entry.candidate < candidate) {
          best, candidate := entry.count, entry.candidate;
        }
      }
    }
    if total == 0 || best == 0 {
      return NoPrediction;
    }
    r := Predicted(candidate, Min(best * 65535 / total, 65535), Min(total, COUNT_MAX));
  }
}
