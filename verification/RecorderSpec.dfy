/** What the stability recorder decides on each event, and what it commits. */
module RecorderSpec {
  import opened Bytes
  import opened Q16
  import opened RecordChain

  datatype Decision = Stable | Observe | Dump | Failsafe

  datatype Input = Input(
    ns: u64, stream: u64, peer: u64, pid: u32, tid: u32, descriptor: u32, byteCount: u32,
    latency: u32, flags: bv32, kind: u16, gc: q16)

  /** Zero selects the default of a limit. */
  datatype Policy = Policy(
    deltaTrigger: q16, releaseDelta: q16, minEvents: u16, maxEvents: u16, mask: bv32, expectedTag: u64)

  datatype Record = Record(
    ns: u64, stream: u64, peer: u64, chain: u64, pid: u32, tid: u32, descriptor: u32, byteCount: u32,
    latency: u32, flags: bv32, kind: u16, stability: q16, baseline: q16, delta: q16,
    alternation: q16, burst: q16, gc: q16, decision: u16)

  datatype Signals = Signals(
    tag: u64, chain: u64, lastNs: u64, lastStream: u64, unstableRun: u32, dumpRun: u32, direction: u16,
    initialized: bool, baseline: q16, stability: q16, alternation: q16, burst: q16, gc: q16, delta: q16)

  const CAPACITY: nat := 256

  // ----- The policy

  function Trigger(p: Policy): q16 {
    if p.deltaTrigger != 0 then p.deltaTrigger else 11796
  }

  function ReleaseDelta(p: Policy): q16 {
    if p.releaseDelta != 0 then p.releaseDelta else Cast(Trigger(p) / 2)
  }

  function MinEvents(p: Policy): (n: u16)
    ensures n > 0
  {
    if p.minEvents != 0 then p.minEvents else 2
  }

  function MaxEvents(p: Policy): (n: u16)
    ensures n > 0
  {
    if p.maxEvents != 0 then p.maxEvents else CAPACITY
  }

  predicate HasBit(mask: bv32, kind: u16)
    requires kind < 32
  {
    mask & ((1 as bv32) << kind) != 0
  }

  predicate Allowed(p: Policy, kind: u16) {
    kind != 0 && kind < 32 && (p.mask == 0 || HasBit(p.mask, kind))
  }

  // ----- The samples of one event

  datatype Samples = Samples(alternation: q16, burst: q16, gc: q16, latency: q16, flags: q16)

  /** Reads are direction 1, writes direction 2, everything else has none. */
  function Direction(kind: u16): u16 {
    if kind == 1 || kind == 8 then 1 else if kind == 2 || kind == 9 then 2 else 0
  }

  function BurstSample(previous: u64, current: u64): q16 {
    if previous == 0 || current <= previous then 0
    else if current - previous <= 1_000_000 then ONE
    else if current - previous <= 10_000_000 then 32768
    else 0
  }

  function LatencyPressure(latency: u32): q16 {
    if latency >= 5_000_000 then ONE else Cast(latency * 65535 / 5_000_000)
  }

  predicate Has(flags: bv32, flag: bv32) {
    flags & flag != 0
  }

  function One(b: bool): nat {
    if b then 1 else 0
  }

  function FlagPressure(flags: bv32): q16 {
    var count := One(Has(flags, 0x1)) + One(Has(flags, 0x4)) + One(Has(flags, 0x8)) + One(Has(flags, 0x10));
    if count >= 4 then ONE else Cast(count * 16384)
  }

  function Sampled(s: Signals, input: Input): Samples {
    var direction := Direction(input.kind);
    Samples(
      if direction != 0 && s.direction != 0 && direction != s.direction then ONE else 0,
      BurstSample(s.lastNs, input.ns),
      if Has(input.flags, 0x2) && input.gc < 49152 then 49152 else input.gc,
      LatencyPressure(input.latency),
      FlagPressure(input.flags))
  }

  function Instability(alternation: q16, burst: q16, gc: q16, latency: q16, flags: q16): q16 {
    Cast((2 * Average(alternation, burst) + 2 * gc + latency + flags) / 6)
  }

  /** None of the casts to 16 bits drops a bit. */
  lemma CastsLoseNothing(a: q16, b: q16, gc: q16, latency: u32, flags: bv32, f: q16)
    ensures Average(a, b) == (a + b) / 2
    ensures Distance(a, b) == if a >= b then a - b else b - a
    ensures latency < 5_000_000 ==> LatencyPressure(latency) == latency * 65535 / 5_000_000
    ensures exists count: nat :: count <= 4 && FlagPressure(flags) == if count == 4 then 65535 else count * 16384
    ensures Instability(a, b, gc, LatencyPressure(latency), f)
         == (2 * ((a + b) / 2) + 2 * gc + LatencyPressure(latency) + f) / 6
  {
    hide Has;
    var count := One(Has(flags, 0x1)) + One(Has(flags, 0x4)) + One(Has(flags, 0x8)) + One(Has(flags, 0x10));
    assert FlagPressure(flags) == if count == 4 then 65535 else count * 16384;
    if latency < 5_000_000 {
      assert latency * 65535 / 5_000_000 < 65536;
    }
  }

  // ----- One event

  /** The averages, the stability and its distance from the baseline. */
  function Measured(s: Signals, m: Samples): Signals {
    var alternation, burst, gc := Smooth(s.alternation, m.alternation, 2), Smooth(s.burst, m.burst, 2), Smooth(s.gc, m.gc, 2);
    var stability := ONE - Instability(alternation, burst, gc, m.latency, m.flags);
    var baseline := if s.lastNs == 0 then stability else Smooth(s.baseline, stability, 4);
    s.(alternation := alternation, burst := burst, gc := gc, stability := stability, baseline := baseline,
       delta := Distance(stability, baseline))
  }

  /** The length of the unstable run, in 32 bits, and the end of an episode. */
  function Counted(s: Signals, p: Policy): Signals {
    if s.delta >= Trigger(p) then s.(unstableRun := (s.unstableRun + 1) % U32)
    else s.(unstableRun := 0, dumpRun := if s.delta <= ReleaseDelta(p) then 0 else s.dumpRun)
  }

  predicate Dumps(s: Signals, p: Policy) {
    s.unstableRun >= MinEvents(p) && s.dumpRun < MaxEvents(p)
  }

  function Triggered(flags: bv32): bv32 {
    flags | 0x8000_0000
  }

  function Draft(s: Signals, input: Input): Record {
    Record(input.ns, input.stream, input.peer, 0, input.pid, input.tid, input.descriptor, input.byteCount,
           input.latency, Triggered(input.flags), input.kind, s.stability, s.baseline, s.delta,
           s.alternation, s.burst, s.gc, 2)
  }

  function Word(x: bv32): u32 {
    Word32(x);
    x as int
  }

  const WIDTHS: seq<nat> := [8, 8, 8, 4, 4, 4, 4, 4, 4, 2, 2, 2, 2, 2, 2, 2, 2]

  /** Every byte of a record except its own link. */
  function Content(r: Record): seq<byte> {
    Pack(Values(r), WIDTHS)
  }

  function Values(r: Record): (v: seq<nat>)
    ensures |v| == 17
  {
    [r.ns, r.stream, r.peer, r.pid, r.tid, r.descriptor, r.byteCount, r.latency, Word(r.flags), r.kind,
     r.stability, r.baseline, r.delta, r.alternation, r.burst, r.gc, r.decision]
  }

  /** The link covers every field of a record. */
  lemma ContentDetermines(r: Record, q: Record)
    requires Content(r) == Content(q) && r.chain == q.chain
    ensures r == q
  {
    hide Pack, Width, Pow256, Fits;
    var v, w := Values(r), Values(q);
    ValuesFit(r);
    ValuesFit(q);
    UnpackPack(v, WIDTHS);
    UnpackPack(w, WIDTHS);
    Word32(r.flags);
    Word32(q.flags);
    assert v[0] == w[0] && v[1] == w[1] && v[2] == w[2] && v[3] == w[3] && v[4] == w[4] && v[5] == w[5] && v[6] == w[6];
    assert v[7] == w[7] && v[8] == w[8] && v[9] == w[9] && v[10] == w[10] && v[11] == w[11] && v[12] == w[12];
    assert v[13] == w[13] && v[14] == w[14] && v[15] == w[15] && v[16] == w[16];
  }

  lemma ValuesFit(r: Record)
    ensures Fits(Values(r), WIDTHS)
  {
    hide Pow256;
    Pow256Values();
  }

  function RecordLayout(): Layout<Record> {
    Layout((r: Record) => r.chain, (r: Record) => Content(r))
  }

  function NewRecord(s: Signals, input: Input): (r: Record)
    ensures r.chain == Link(s.chain, Content(r))
  {
    hide Link, Pack;
    var draft := Draft(s, input);
    draft.(chain := Link(s.chain, Content(draft)))
  }

  datatype Outcome = Outcome(s: Signals, decision: Decision, committed: seq<Record>)

  function Seen(s: Signals, input: Input): Signals {
    s.(direction := if Direction(input.kind) != 0 then Direction(input.kind) else s.direction,
       lastNs := input.ns, lastStream := input.stream)
  }

  function Observed(s: Signals, p: Policy, input: Input): Outcome {
    if !s.initialized then Outcome(s, Failsafe, [])
    else if !Allowed(p, input.kind) then Outcome(s, Stable, [])
    else
      var t := Counted(Measured(s, Sampled(s, input)), p);
      if Dumps(t, p) then
        var r := NewRecord(t, input);
        Outcome(Seen(t.(chain := r.chain, dumpRun := t.dumpRun + 1), input), Dump, [r])
      else
        Outcome(Seen(t, input), if t.delta >= Trigger(p) then Observe else Stable, [])
  }

  function Initial(tag: u64): Signals {
    Signals(tag, 0, 0, 0, 0, 0, 0, true, ONE, ONE, 0, 0, 0, 0)
  }
}
