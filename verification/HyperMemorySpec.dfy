/** A ring of records bounded by bytes: appending evicts from the old end, and a checkpoint can be
    restored into a ring of another capacity. */
module HyperMemorySpec {
  import opened Bytes

  type Text = seq<u16>
  type Digest = string

  const FRAME_OVERHEAD: nat := 64
  const MAX_SAFE: int := 0x1f_ffff_ffff_ffff

  datatype Record = Record(sequence: int, timestamp: int, kind: Text, payload: seq<byte>, sha: Digest)

  // ----- Sizes

  /** The number of bytes of UTF-16 text in UTF-8; a lone surrogate counts as a replacement character. */
  function Utf8Length(s: Text): nat {
    if s == [] then 0
    else if s[0] < 0x80 then 1 + Utf8Length(s[1..])
    else if s[0] < 0x800 then 2 + Utf8Length(s[1..])
    else if 0xd800 <= s[0] < 0xdc00 && |s| > 1 && 0xdc00 <= s[1] < 0xe000 then 4 + Utf8Length(s[2..])
    else 3 + Utf8Length(s[1..])
  }

  function FrameSize(kind: Text, payloadBytes: nat): nat {
    FRAME_OVERHEAD + Utf8Length(kind) + payloadBytes
  }

  function Frame(r: Record): (n: nat)
    ensures n > 0
  {
    FrameSize(r.kind, |r.payload|)
  }

  function Total(q: seq<Record>): nat {
    if q == [] then 0 else Frame(q[0]) + Total(q[1..])
  }

  lemma {:induction false} TotalConcat(a: seq<Record>, b: seq<Record>)
    ensures Total(a + b) == Total(a) + Total(b)
  {
    hide Frame;
    if a == [] {
      assert a + b == b;
    } else {
      assert (a + b)[0] == a[0] && (a + b)[1..] == a[1..] + b;
      TotalConcat(a[1..], b);
    }
  }

  lemma TotalOne(r: Record)
    ensures Total([r]) == Frame(r)
  {
    assert [r][1..] == [];
  }

  // ----- The longest suffix that fits

  function Fit(q: seq<Record>, capacity: nat): (r: seq<Record>)
    ensures |r| <= |q| && r == q[|q| - |r|..]
    ensures Total(r) <= capacity
  {
    if Total(q) <= capacity then q else Fit(q[1..], capacity)
  }

  /** No longer suffix fits. */
  lemma {:induction false} FitIsLongest(q: seq<Record>, capacity: nat, k: nat)
    requires k <= |q| && Total(q[k..]) <= capacity
    ensures |q| - k <= |Fit(q, capacity)|
  {
    hide Frame;
    assert q[0..] == q;
    if Total(q) > capacity && k > 0 {
      assert q[1..][k - 1..] == q[k..];
      FitIsLongest(q[1..], capacity, k - 1);
    }
  }

  /** Fitting what was kept together with a new record is the same as fitting everything. */
  lemma {:induction false} FitStep(q: seq<Record>, r: Record, capacity: nat)
    ensures Fit(Fit(q, capacity) + [r], capacity) == Fit(q + [r], capacity)
  {
    hide Frame;
    if Total(q) > capacity {
      assert (q + [r])[1..] == q[1..] + [r];
      TotalConcat(q, [r]);
      FitStep(q[1..], r, capacity);
    }
  }

  /** A smaller capacity wins. */
  lemma {:induction false} FitFit(q: seq<Record>, first: nat, second: nat)
    ensures Fit(Fit(q, first), second) == Fit(q, if first <= second then first else second)
  {
    if Total(q) > first {
      FitFit(q[1..], first, second);
      if second < first && Total(q) > second {
        assert Fit(q, second) == Fit(q[1..], second);
      }
    } else if first <= second {
      assert Fit(q, first) == q;
    }
  }

  // ----- Eviction

  /** What is left when the oldest records make room for `need` bytes. */
  function Evict(q: seq<Record>, need: nat, capacity: nat): (r: seq<Record>)
    ensures |r| <= |q|
  {
    if q != [] && Total(q) + need > capacity then Evict(q[1..], need, capacity) else q
  }

  /** Making room and pushing keeps the longest suffix that fits; a record larger than the capacity
      empties the ring and is dropped. */
  lemma {:induction false} EvictIsFit(q: seq<Record>, r: Record, capacity: nat)
    ensures Fit(q + [r], capacity) ==
      if Frame(r) <= capacity then Evict(q, Frame(r), capacity) + [r] else []
    ensures Frame(r) > capacity ==> Evict(q, Frame(r), capacity) == []
  {
    hide Frame;
    TotalConcat(q, [r]);
    TotalOne(r);
    if q == [] {
      assert [] + [r] == [r];
      assert [r][1..] == [];
    } else {
      assert (q + [r])[1..] == q[1..] + [r];
      EvictIsFit(q[1..], r, capacity);
    }
  }

  // ----- The ring

  datatype Ring = Ring(records: seq<Record>, evictions: int, next: int)

  function Pushed(ring: Ring, r: Record, capacity: nat): Ring {
    var kept := Evict(ring.records, Frame(r), capacity);
    Ring(if Frame(r) <= capacity then kept + [r] else kept, ring.evictions + |ring.records| - |kept|, ring.next)
  }

  lemma PushedFits(ring: Ring, history: seq<Record>, r: Record, capacity: nat)
    requires ring.records == Fit(history, capacity)
    ensures Pushed(ring, r, capacity).records == Fit(history + [r], capacity)
  {
    hide Fit, Evict, Frame;
    FitStep(history, r, capacity);
    EvictIsFit(ring.records, r, capacity);
  }

  /** Consecutive numbers that end just before the next one. */
  predicate Contiguous(q: seq<Record>, next: int) {
    forall i :: 0 <= i < |q| ==> q[i].sequence == next - |q| + i
  }

  /** An accepted append, numbered with the next sequence. */
  function Appended(ring: Ring, timestamp: int, kind: Text, payload: seq<byte>, sha: Digest, capacity: nat): Ring {
    Pushed(ring, Record(ring.next, timestamp, kind, payload, sha), capacity).(next := ring.next + 1)
  }

  /** The ring is what fits of a history of consecutive records, and every record that was ever
      numbered is in the ring or has been counted as evicted. */
  predicate Sound(ring: Ring, history: seq<Record>, capacity: nat) {
    && ring.records == Fit(history, capacity)
    && Contiguous(history, ring.next)
    && |history| < ring.next
    && ring.evictions + |ring.records| == ring.next - 1
  }

  lemma FreshSound(capacity: nat)
    ensures Sound(Ring([], 0, 1), [], capacity)
  {
  }

  lemma AppendKeepsSound(ring: Ring, history: seq<Record>, timestamp: int, kind: Text, payload: seq<byte>, sha: Digest, capacity: nat)
    requires Sound(ring, history, capacity) && FrameSize(kind, |payload|) <= capacity
    ensures var r := Record(ring.next, timestamp, kind, payload, sha);
            Sound(Appended(ring, timestamp, kind, payload, sha, capacity), history + [r], capacity)
  {
    hide Fit, Pushed, Contiguous, FrameSize;
    var r := Record(ring.next, timestamp, kind, payload, sha);
    PushedFits(ring, history, r, capacity);
    PushedCounts(ring, r, capacity);
    NextContiguous(history, r, ring.next);
  }

  lemma PushedCounts(ring: Ring, r: Record, capacity: nat)
    requires Frame(r) <= capacity
    ensures var p := Pushed(ring, r, capacity);
            p.evictions + |p.records| == ring.evictions + |ring.records| + 1 && p.next == ring.next
  {
    hide Frame;
  }

  lemma NextContiguous(q: seq<Record>, r: Record, next: int)
    requires Contiguous(q, next) && r.sequence == next
    ensures Contiguous(q + [r], next + 1)
  {
  }

  datatype Item = Item(timestamp: int, kind: Text, payload: seq<byte>, sha: Digest)

  function AppendAll(ring: Ring, items: seq<Item>, capacity: nat): Ring
    decreases |items|
  {
    if items == [] then ring
    else
      var last := items[|items| - 1];
      Appended(AppendAll(ring, items[..|items| - 1], capacity), last.timestamp, last.kind, last.payload, last.sha, capacity)
  }

  /** The items as the records they become when numbered from one. */
  function Numbered(items: seq<Item>): (q: seq<Record>)
    ensures |q| == |items|
  {
    seq(|items|, i requires 0 <= i < |items| =>
      Record(i + 1, items[i].timestamp, items[i].kind, items[i].payload, items[i].sha))
  }

  /** After any appends to a fresh ring it holds exactly the longest suffix of all of them that fits, in
      order and numbered without gaps, and evictions and records add up to everything appended. */
  lemma {:induction false} AppendsFromFresh(items: seq<Item>, capacity: nat)
    requires forall i :: 0 <= i < |items| ==> FrameSize(items[i].kind, |items[i].payload|) <= capacity
    ensures var ring := AppendAll(Ring([], 0, 1), items, capacity);
            && Sound(ring, Numbered(items), capacity) && ring.next == |items| + 1
            && ring.evictions + |ring.records| == |items|
    decreases |items|
  {
    hide Fit, FrameSize, Pushed;
    if items == [] {
      FreshSound(capacity);
    } else {
      var front, last := items[..|items| - 1], items[|items| - 1];
      AppendsFromFresh(front, capacity);
      AppendKeepsSound(AppendAll(Ring([], 0, 1), front, capacity), Numbered(front), last.timestamp, last.kind, last.payload, last.sha, capacity);
      assert Numbered(items) == Numbered(front) + [Record(|items|, last.timestamp, last.kind, last.payload, last.sha)];
    }
  }

  // ----- Restoring

  function PushedAll(ring: Ring, q: seq<Record>, capacity: nat): Ring
    decreases |q|
  {
    if q == [] then ring else Pushed(PushedAll(ring, q[..|q| - 1], capacity), q[|q| - 1], capacity)
  }

  function Oversize(q: seq<Record>, capacity: nat): nat
    decreases |q|
  {
    if q == [] then 0 else Oversize(q[..|q| - 1], capacity) + if Frame(q[|q| - 1]) > capacity then 1 else 0
  }

  /** Restoring record by record keeps the longest suffix that fits, and counts every record that was
      left behind except those larger than the whole capacity. */
  lemma {:induction false} RestoreIsFit(evictions: int, next: int, q: seq<Record>, capacity: nat)
    ensures var ring := PushedAll(Ring([], evictions, next), q, capacity);
            && ring.records == Fit(q, capacity) && ring.next == next
            && ring.evictions + |ring.records| + Oversize(q, capacity) == evictions + |q|
    decreases |q|
  {
    hide Frame, Fit, Evict;
    if q == [] {
      FitNothing(capacity);
    } else {
      var front, last := q[..|q| - 1], q[|q| - 1];
      RestoreIsFit(evictions, next, front, capacity);
      FitStep(front, last, capacity);
      EvictIsFit(Fit(front, capacity), last, capacity);
      assert front + [last] == q;
    }
  }

  lemma FitNothing(capacity: nat)
    ensures Fit([], capacity) == []
  {
  }

  lemma {:induction false} NoneOversize(q: seq<Record>, capacity: nat)
    ensures Oversize(q, capacity) == 0 <==> forall r :: r in q ==> Frame(r) <= capacity
    decreases |q|
  {
    hide Frame;
    if q != [] {
      NoneOversize(q[..|q| - 1], capacity);
      assert q == q[..|q| - 1] + [q[|q| - 1]];
    }
  }

  /** A ring restored under another capacity holds the longest suffix of the history that fits both
      capacities, numbered as before; under the same capacity it is the same ring. */
  lemma RestoreContents(ring: Ring, history: seq<Record>, capacity: nat, newCapacity: nat)
    requires Sound(ring, history, capacity)
    ensures var restored := PushedAll(Ring([], ring.evictions, ring.next), ring.records, newCapacity);
            && restored.records == Fit(ring.records, newCapacity)
                                == Fit(history, if capacity <= newCapacity then capacity else newCapacity)
            && Contiguous(restored.records, restored.next) && restored.next == ring.next
            && (newCapacity == capacity ==> restored == ring)
  {
    hide Frame, Fit, PushedAll, Contiguous, Oversize;
    RestoreIsFit(ring.evictions, ring.next, ring.records, newCapacity);
    FitFit(history, capacity, newCapacity);
    FitContiguous(history, capacity, ring.next);
    FitContiguous(ring.records, newCapacity, ring.next);
    if newCapacity == capacity {
      FitTotal(history, capacity);
      NothingOversize(ring.records, capacity);
    }
  }

  /** The restored ring is sound again exactly when no record of the snapshot is larger than the new
      capacity. */
  lemma RestoreSound(ring: Ring, history: seq<Record>, capacity: nat, newCapacity: nat)
    requires Sound(ring, history, capacity)
    ensures Sound(PushedAll(Ring([], ring.evictions, ring.next), ring.records, newCapacity), ring.records, newCapacity)
       <==> forall r :: r in ring.records ==> Frame(r) <= newCapacity
  {
    hide Frame, Fit, PushedAll, Contiguous, Oversize;
    RestoreIsFit(ring.evictions, ring.next, ring.records, newCapacity);
    NoneOversize(ring.records, newCapacity);
    FitContiguous(history, capacity, ring.next);
  }

  /** A record that fits one capacity is restored under a smaller one that it does not fit: it is gone,
      and it is not counted as an eviction, so that the counters no longer add up. */
  lemma RestoreLosesCount(r: Record, capacity: nat, newCapacity: nat)
    requires r.sequence == 1 && newCapacity < Frame(r) <= capacity
    ensures var ring := Ring([r], 0, 2);
            var restored := PushedAll(Ring([], ring.evictions, ring.next), ring.records, newCapacity);
            Sound(ring, [r], capacity) && restored == Ring([], 0, 2) && !Sound(restored, ring.records, newCapacity)
  {
    hide Frame, Fit, PushedAll, Oversize, Sound;
    OneFits(r, capacity);
    OneFits(r, newCapacity);
    OneSound(r, capacity);
    assert r in [r];
    RestoreSound(Ring([r], 0, 2), [r], capacity, newCapacity);
    RestoreIsFit(0, 2, [r], newCapacity);
  }

  lemma OneFits(r: Record, capacity: nat)
    ensures Fit([r], capacity) == if Frame(r) <= capacity then [r] else []
    ensures Oversize([r], capacity) == if Frame(r) <= capacity then 0 else 1
  {
    hide Frame;
    TotalOne(r);
    assert [r][..0] == [] && [r][1..] == [];
    FitNothing(capacity);
  }

  lemma OneSound(r: Record, capacity: nat)
    requires r.sequence == 1 && Fit([r], capacity) == [r]
    ensures Sound(Ring([r], 0, 2), [r], capacity)
  {
    hide Fit, Frame;
  }

  lemma NothingOversize(q: seq<Record>, capacity: nat)
    requires Total(q) <= capacity
    ensures Oversize(q, capacity) == 0
  {
    hide Frame, Oversize;
    FittingNotOversize(q, capacity);
    NoneOversize(q, capacity);
  }

  lemma FitTotal(q: seq<Record>, capacity: nat)
    ensures Total(Fit(q, capacity)) <= capacity && |Fit(q, capacity)| <= |q|
  {
  }

  lemma FitContiguous(q: seq<Record>, capacity: nat, next: int)
    requires Contiguous(q, next)
    ensures Contiguous(Fit(q, capacity), next) && |Fit(q, capacity)| <= |q|
  {
    hide Contiguous;
    SuffixContiguous(q, |q| - |Fit(q, capacity)|, next);
  }

  lemma SuffixContiguous(q: seq<Record>, k: nat, next: int)
    requires Contiguous(q, next) && k <= |q|
    ensures Contiguous(q[k..], next)
  {
  }

  lemma {:induction false} FittingNotOversize(q: seq<Record>, capacity: nat)
    requires Total(q) <= capacity
    ensures forall r :: r in q ==> Frame(r) <= capacity
  {
    hide Frame;
    if q != [] {
      FittingNotOversize(q[1..], capacity);
    }
  }
}
