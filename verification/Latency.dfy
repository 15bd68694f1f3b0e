/** The ring of the last 256 latencies and the percentiles reported from it. */
module Latency {
  import opened Arith

  const SAMPLES: nat := 256

  datatype Ring = Ring(samples: seq<nat>, count: nat, cursor: nat)
  {
    predicate Shape() {
      |samples| == SAMPLES && count <= SAMPLES && cursor < SAMPLES
    }
  }

  type Window = r: Ring | r.Shape() witness Ring(seq(SAMPLES, _ => 0), 0, 0)

  function Blank(): Window {
    Ring(seq(SAMPLES, _ => 0), 0, 0)
  }

  function Push(r: Window, elapsed: nat): Window {
    Ring(r.samples[r.cursor := elapsed], if r.count < SAMPLES then r.count + 1 else r.count,
         (r.cursor + 1) % SAMPLES)
  }

  /** A ring without samples; a reset leaves the old ones in their slots. */
  predicate Emptied(r: Window) {
    r.count == 0 && r.cursor == 0
  }

  /** The ring after the latencies of `history`, in order, from a ring without samples. */
  function After(start: Window, history: seq<nat>): Window {
    if history == [] then start else Push(After(start, history[..|history| - 1]), history[|history| - 1])
  }

  function Recent(history: seq<nat>): seq<nat> {
    if |history| <= 256 then history else history[|history| - 256..]
  }

  // ----- Sorting

  predicate Ascending(s: seq<nat>) {
    forall i, j :: 0 <= i < j < |s| ==> s[i] <= s[j]
  }

  /** Inserts behind the elements that are not larger. */
  function Insert(s: seq<nat>, x: nat): (t: seq<nat>)
    ensures |t| == |s| + 1
  {
    if s == [] || s[|s| - 1] <= x then s + [x] else Insert(s[..|s| - 1], x) + [s[|s| - 1]]
  }

  function Sort(s: seq<nat>): (t: seq<nat>)
    ensures |t| == |s|
  {
    if s == [] then [] else Insert(Sort(s[..|s| - 1]), s[|s| - 1])
  }

  /** How many elements are at most `v`. */
  function AtMost(s: seq<nat>, v: int): (n: nat)
    ensures n <= |s|
  {
    if s == [] then 0 else AtMost(s[..|s| - 1], v) + (if s[|s| - 1] <= v then 1 else 0)
  }

  lemma {:induction false} AtMostConcat(a: seq<nat>, b: seq<nat>, v: int)
    ensures AtMost(a + b, v) == AtMost(a, v) + AtMost(b, v)
    decreases |b|
  {
    if b == [] {
      assert a + b == a;
    } else {
      assert (a + b)[..|a + b| - 1] == a + b[..|b| - 1];
      AtMostConcat(a, b[..|b| - 1], v);
    }
  }

  lemma {:induction false} InsertCounts(s: seq<nat>, x: nat, v: int)
    ensures AtMost(Insert(s, x), v) == AtMost(s, v) + (if x <= v then 1 else 0)
  {
    SingleAtMost(x, v);
    if s == [] || s[|s| - 1] <= x {
      AtMostConcat(s, [x], v);
    } else {
      var last := s[|s| - 1];
      InsertCounts(s[..|s| - 1], x, v);
      AtMostConcat(Insert(s[..|s| - 1], x), [last], v);
      SingleAtMost(last, v);
    }
  }

  lemma SingleAtMost(x: nat, v: int)
    ensures AtMost([x], v) == if x <= v then 1 else 0
  {
    assert [x][..0] == [];
  }

  lemma {:induction false} InsertAscending(s: seq<nat>, x: nat)
    requires Ascending(s)
    ensures Ascending(Insert(s, x))
    ensures forall i :: 0 <= i < |s| + 1 ==> Insert(s, x)[i] == x || (|s| > 0 && Insert(s, x)[i] <= s[|s| - 1])
  {
    if s != [] && s[|s| - 1] > x {
      InsertAscending(s[..|s| - 1], x);
    }
  }

  /** Sorting keeps, for every value, the number of elements at most that value. */
  lemma {:induction false} SortProperties(s: seq<nat>, v: int)
    ensures Ascending(Sort(s))
    ensures AtMost(Sort(s), v) == AtMost(s, v)
  {
    if s != [] {
      SortProperties(s[..|s| - 1], v);
      InsertCounts(Sort(s[..|s| - 1]), s[|s| - 1], v);
      InsertAscending(Sort(s[..|s| - 1]), s[|s| - 1]);
    }
  }

  lemma {:induction false} InsertAt(s: seq<nat>, j: nat, x: nat)
    requires j <= |s|
    requires forall k :: j <= k < |s| ==> s[k] > x
    requires j > 0 ==> s[j - 1] <= x
    ensures Insert(s, x) == s[..j] + [x] + s[j..]
    decreases |s|
  {
    if j < |s| {
      var last := |s| - 1;
      InsertAt(s[..last], j, x);
      assert s[j..] == s[..last][j..] + [s[last]];
    } else {
      assert s[..j] == s && s[j..] == [];
    }
  }

  /** Moves the larger values before `i` up by one and puts the value of `i` in the gap. */
  method ShiftIn(values: array<nat>, i: nat)
    requires i < values.Length
    modifies values
    ensures values[..i + 1] == Insert(old(values[..i]), old(values[i]))
    ensures values[i + 1..] == old(values[i + 1..])
  {
    hide Insert;
    ghost var before := values[..i];
    var key := values[i];
    var j := i;
    while j > 0 && values[j - 1] > key
      invariant j <= i
      invariant forall k :: 0 <= k < j ==> values[k] == before[k]
      invariant forall k :: j < k <= i ==> values[k] == before[k - 1]
      invariant values[i + 1..] == old(values[i + 1..])
      invariant forall k :: j <= k < i ==> before[k] > key
    {
      values[j] := values[j - 1];
      j := j - 1;
    }
    values[j] := key;
    InsertAt(before, j, key);
    assert values[..i + 1] == before[..j] + [key] + before[j..];
  }

  method SortInPlace(values: array<nat>)
    modifies values
    ensures values[..] == Sort(old(values[..]))
  {
    hide Insert;
    ghost var input := values[..];
    for i := 0 to values.Length
      invariant values[..i] == Sort(input[..i])
      invariant values[i..] == input[i..]
    {
      assert values[i] == values[i..][0] == input[i];
      assert values[i + 1..] == values[i..][1..];
      assert input[..i + 1][..i] == input[..i];
      ShiftIn(values, i);
    }
    assert values[..values.Length] == values[..] && input[..values.Length] == input;
  }

  // ----- Percentiles

  function Rank(n: nat, numerator: nat, denominator: nat): (rank: nat)
    requires n > 0 && denominator > 0
    ensures 1 <= rank <= n
  {
    var exact := (n * numerator + denominator - 1) / denominator;
    if exact == 0 then 1 else if exact > n then n else exact
  }

  /** The rank is the least one that covers the fraction, but at least the first and at most the last. */
  lemma RankCovers(n: nat, numerator: nat, denominator: nat)
    requires n > 0 && denominator > 0
    ensures var rank := Rank(n, numerator, denominator);
      && (rank < n ==> n * numerator <= rank * denominator)
      && (rank > 1 ==> (rank - 1) * denominator < n * numerator)
  {
    var padded := n * numerator + denominator - 1;
    var exact := padded / denominator;
    assert exact * denominator <= padded < exact * denominator + denominator;
    assert (exact - 1) * denominator == exact * denominator - denominator;
    if exact > n {
      Monotone(n - 1, exact - 1, denominator);
    }
  }

  function Percentile(r: Window, numerator: nat, denominator: nat): nat
    requires denominator > 0
  {
    if r.count == 0 then 0
    else Sort(r.samples[..r.count])[Rank(r.count, numerator, denominator) - 1]
  }

  method ComputePercentile(samples: array<nat>, count: nat, cursor: nat, numerator: nat, denominator: nat)
    returns (value: nat)
    requires Ring(samples[..], count, cursor).Shape() && denominator > 0
    ensures value == Percentile(Ring(samples[..], count, cursor), numerator, denominator)
  {
    hide Rank;
    if count == 0 {
      return 0;
    }
    var values := new nat[count];
    for i := 0 to count
      invariant values[..i] == samples[..i]
    {
      values[i] := samples[i];
    }
    assert values[..] == samples[..count] == samples[..][..count];
    SortInPlace(values);
    var rank := ComputeRank(count, numerator, denominator);
    value := values[rank - 1];
    assert value == values[..][rank - 1];
  }

  method ComputeRank(n: nat, numerator: nat, denominator: nat) returns (rank: nat)
    requires n > 0 && denominator > 0
    ensures rank == Rank(n, numerator, denominator)
  {
    rank := (n * numerator + denominator - 1) / denominator;
    if rank == 0 {
      rank := 1;
    }
    if rank > n {
      rank := n;
    }
  }

  // ----- What the percentiles mean

  /** In an ascending sequence, the element at `k` has at least `k + 1` elements at most itself and
      at most `k` elements below itself. */
  lemma AscendingRank(s: seq<nat>, k: nat)
    requires Ascending(s) && k < |s|
    ensures var v: int := s[k]; AtMost(s, v - 1) <= k < AtMost(s, v)
  {
    hide AtMost;
    var v: int := s[k];
    AllAtMost(s[..k + 1], s[k]);
    NoneAtMost(s[k..], v - 1);
    assert s == s[..k + 1] + s[k + 1..] && s == s[..k] + s[k..];
    AtMostConcat(s[..k + 1], s[k + 1..], s[k]);
    AtMostConcat(s[..k], s[k..], v - 1);
  }

  lemma {:induction false} AllAtMost(s: seq<nat>, v: int)
    requires forall i :: 0 <= i < |s| ==> s[i] <= v
    ensures AtMost(s, v) == |s|
  {
    if s != [] {
      AllAtMost(s[..|s| - 1], v);
    }
  }

  lemma {:induction false} NoneAtMost(s: seq<nat>, v: int)
    requires forall i :: 0 <= i < |s| ==> s[i] > v
    ensures AtMost(s, v) == 0
  {
    if s != [] {
      NoneAtMost(s[..|s| - 1], v);
    }
  }

  lemma SlotsDiffer(i: nat, n: nat)
    requires i < n < i + SAMPLES
    ensures i % SAMPLES != n % SAMPLES
  {
  }

  lemma NextSlot(n: nat)
    ensures (n % SAMPLES + 1) % SAMPLES == (n + 1) % SAMPLES
  {
  }

  predicate Slots(r: Window, history: seq<nat>) {
    && r.count == (if |history| < SAMPLES then |history| else SAMPLES)
    && r.cursor == |history| % SAMPLES
    && forall i :: 0 <= i < |history| && |history| - SAMPLES <= i ==> r.samples[i % SAMPLES] == history[i]
  }

  /** The slots of the ring, for every history. */
  lemma {:induction false} RingSlots(start: Window, history: seq<nat>)
    requires Emptied(start)
    ensures Slots(After(start, history), history)
  {
    if history != [] {
      var n := |history| - 1;
      var before, r := history[..n], After(start, history[..n]);
      RingSlots(start, before);
      NextSlot(n);
      var r' := After(start, history);
      forall i | 0 <= i <= n && n + 1 - SAMPLES <= i ensures r'.samples[i % SAMPLES] == history[i] {
        if i < n {
          SlotsDiffer(i, n);
          assert r.samples[i % SAMPLES] == before[i];
        }
      }
    }
  }

  /** The ring holds exactly the most recent latencies: in order until it wraps, and then the newest of
      them up to the cursor, followed by the older ones, each part from older to newer. */
  lemma RingIsRotation(start: Window, history: seq<nat>)
    requires Emptied(start)
    ensures var r, recent := After(start, history), Recent(history);
      && r.count == |recent|
      && (|history| <= SAMPLES ==> r.samples[..r.count] == recent)
      && (|history| > SAMPLES ==>
            r.samples == recent[SAMPLES - r.cursor..] + recent[..SAMPLES - r.cursor])
  {
    hide After;
    RingSlots(start, history);
    var r, n, recent := After(start, history), |history|, Recent(history);
    if n <= SAMPLES {
      forall i | 0 <= i < n ensures r.samples[i] == history[i] {
        assert i % SAMPLES == i;
      }
    } else {
      var split := SAMPLES - r.cursor;
      var rotated := recent[split..] + recent[..split];
      forall j | 0 <= j < SAMPLES ensures r.samples[j] == rotated[j] {
        var i := n - SAMPLES + (if j < r.cursor then split + j else j - r.cursor);
        SlotOf(n, r.cursor, j, i);
        assert rotated[j] == history[i];
      }
      assert r.samples == rotated;
    }
  }

  lemma SlotOf(n: nat, c: nat, j: nat, i: nat)
    requires n >= SAMPLES && c == n % SAMPLES && j < SAMPLES
    requires i == n - SAMPLES + (if j < c then SAMPLES - c + j else j - c)
    ensures i % SAMPLES == j
  {
  }

  lemma RingHoldsRecent(start: Window, history: seq<nat>, v: int)
    requires Emptied(start)
    ensures var r := After(start, history);
            r.count == |Recent(history)| && AtMost(r.samples[..r.count], v) == AtMost(Recent(history), v)
  {
    hide After, AtMost;
    RingIsRotation(start, history);
    var r, recent := After(start, history), Recent(history);
    if |history| > SAMPLES {
      var split := SAMPLES - r.cursor;
      assert r.samples[..r.count] == recent[split..] + recent[..split];
      assert recent == recent[..split] + recent[split..];
      AtMostConcat(recent[split..], recent[..split], v);
      AtMostConcat(recent[..split], recent[split..], v);
    }
  }

  /** The reported value is the nearest-rank percentile of the most recent latencies: fewer than
      `rank` of them lie below it and at least `rank` of them are at most it. */
  lemma PercentileIsNearestRank(start: Window, history: seq<nat>, numerator: nat, denominator: nat)
    requires Emptied(start) && history != [] && denominator > 0
    ensures var v: int, recent := Percentile(After(start, history), numerator, denominator), Recent(history);
            AtMost(recent, v - 1) < Rank(|recent|, numerator, denominator) <= AtMost(recent, v)
  {
    hide After, AtMost, Sort, Rank;
    var r := After(start, history);
    RingHoldsRecent(start, history, 0);
    var samples := r.samples[..r.count];
    var rank := Rank(r.count, numerator, denominator);
    var v: int := Percentile(r, numerator, denominator);
    SortProperties(samples, v);
    SortProperties(samples, v - 1);
    AscendingRank(Sort(samples), rank - 1);
    RingHoldsRecent(start, history, v);
    RingHoldsRecent(start, history, v - 1);
  }

  lemma PercentilesOrdered(r: Window, low: nat, high: nat, denominator: nat)
    requires denominator > 0 && low <= high
    ensures Percentile(r, low, denominator) <= Percentile(r, high, denominator)
  {
    hide Sort, Rank;
    if r.count > 0 {
      SortProperties(r.samples[..r.count], 0);
      RanksOrdered(r.count, low, high, denominator);
    }
  }

  lemma RanksOrdered(n: nat, low: nat, high: nat, denominator: nat)
    requires n > 0 && denominator > 0 && low <= high
    ensures Rank(n, low, denominator) <= Rank(n, high, denominator)
  {
    Monotone(low, high, n);
    QuotientMonotone(n * low + denominator - 1, n * high + denominator - 1, denominator);
  }
}
