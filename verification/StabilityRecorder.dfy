/** The stability recorder as it updates its state in place. */
module StabilityRecorder {
  import opened Bytes
  import opened Q16
  import opened RecordChain
  import opened RecordRing
  import opened RecorderSpec
  import opened RecorderProofs

  datatype Profile = Profile(
    version: u32, archFlags: u32, pointerBits: u32, pageSize: u32, cacheLine: u32,
    hwcapLow: u32, hwcapHigh: u32, implementation: u32)

  const ZERO: Record := Record(0, 0, 0, 0, 0, 0, 0, 0, 0, 0, 0, 0, 0, 0, 0, 0, 0, 0)
  const CLEARED: Signals := Signals(0, 0, 0, 0, 0, 0, 0, false, 0, 0, 0, 0, 0, 0)

  function Tag(p: Profile): u64 {
    Hash(OFFSET, Pack([p.version, p.archFlags, p.pointerBits, p.pageSize, p.cacheLine, p.hwcapLow, p.hwcapHigh, p.implementation],
                      [4, 4, 4, 4, 4, 4, 4, 4]))
  }

  function InitStatus(profile: Profile, p: Policy): int {
    if profile.version != 1 then -2
    else if p.expectedTag != 0 && p.expectedTag != Tag(profile) then -3
    else 0
  }

  class Recorder {
    const ring: Ring<Record>
    var s: Signals

    ghost predicate Valid()
      reads this, ring, ring.slots
    {
      && ring.Valid() && ring.slots.Length == CAPACITY
      && LinkedQueue(RecordLayout(), ring.Contents(), s.chain)
    }

    constructor ()
      ensures Valid() && fresh(ring) && fresh(ring.slots) && s == CLEARED && ring.Contents() == []
    {
      ring := new Ring(CAPACITY, ZERO);
      s := CLEARED;
    }

    method Init(profile: Profile, p: Policy) returns (status: int)
      requires Valid()
      modifies this, ring, ring.slots
      ensures Valid() && status == InitStatus(profile, p)
      ensures s == if status == 0 then Initial(Tag(profile)) else old(s)
      ensures ring.Contents() == if status == 0 then [] else old(ring.Contents())
    {
      hide Tag;
      if profile.version != 1 {
        return -2;
      }
      var tag := Tag(profile);
      if p.expectedTag != 0 && p.expectedTag != tag {
        return -3;
      }
      Restart(tag);
      status := 0;
    }

    method Restart(tag: u64)
      requires Valid()
      modifies this, ring, ring.slots
      ensures Valid() && s == Initial(tag) && ring.Contents() == []
    {
      ring.Clear(ZERO);
      s := CLEARED;
      s := s.(tag := tag, baseline := ONE, stability := ONE, initialized := true);
    }

    /** Everything starts over, the chain of records too; only the silicon tag is kept. */
    method ResetEpoch()
      requires Valid()
      modifies this, ring, ring.slots
      ensures Valid() && s == Initial(old(s.tag)) && ring.Contents() == []
    {
      Restart(s.tag);
    }

    method CommitRecord(input: Input)
      requires Valid()
      modifies this, ring, ring.slots
      ensures var r := NewRecord(old(s), input);
              && Valid() && s == old(s).(chain := r.chain)
              && ring.Contents() == Committed(old(ring.Contents()), r, CAPACITY)
    {
      hide Link, Content, Committed, Draft, LinkedQueue;
      var record := Draft(s, input);
      var hash := if s.chain == 0 then OFFSET else s.chain;
      hash := HashBytes(hash, Content(record));
      LinkIs(s.chain, Content(record));
      record := record.(chain := hash);
      CommitKeepsLinks(RecordLayout(), ring.Contents(), NewRecord(s, input), s.chain, CAPACITY);
      ring.Commit(record);
      s := s.(chain := hash);
    }

    /** The averages take their samples, then the stability and its distance from the baseline. */
    method Measure(m: Samples)
      requires Valid()
      modifies this
      ensures Valid() && s == Measured(old(s), m)
    {
      hide Smooth, Instability, Link, Content;
      s := s.(alternation := Smooth(s.alternation, m.alternation, 2));
      s := s.(burst := Smooth(s.burst, m.burst, 2));
      s := s.(gc := Smooth(s.gc, m.gc, 2));
      var instability := Instability(s.alternation, s.burst, s.gc, m.latency, m.flags);
      s := s.(stability := ONE - instability);
      if s.lastNs == 0 {
        s := s.(baseline := s.stability);
      } else {
        s := s.(baseline := Smooth(s.baseline, s.stability, 4));
      }
      s := s.(delta := Distance(s.stability, s.baseline));
    }

    method Observe(p: Policy, input: Input) returns (decision: Decision)
      requires Valid()
      modifies this, ring, ring.slots
      ensures Valid()
      ensures s == Observed(old(s), p, input).s && decision == Observed(old(s), p, input).decision
      ensures var added := Observed(old(s), p, input).committed;
              ring.Contents() == if added == [] then old(ring.Contents()) else Committed(old(ring.Contents()), added[0], CAPACITY)
    {
      hide Measured, Sampled, NewRecord, Committed, Link, Content, LinkedQueue, Direction, Allowed, Trigger, ReleaseDelta, MinEvents;
      if !s.initialized {
        return Failsafe;
      }
      if !Allowed(p, input.kind) {
        return Stable;
      }
      MeasuredKeeps(s, Sampled(s, input));
      Measure(Sampled(s, input));
      decision := Stable;
      if s.delta >= Trigger(p) {
        s := s.(unstableRun := (s.unstableRun + 1) % U32);
        decision := RecorderSpec.Observe;
      } else {
        s := s.(unstableRun := 0);
        if s.delta <= ReleaseDelta(p) {
          s := s.(dumpRun := 0);
        }
      }
      if s.unstableRun >= MinEvents(p) && s.dumpRun < MaxEvents(p) {
        decision := Dump;
        CommitRecord(input);
        s := s.(dumpRun := s.dumpRun + 1);
      }
      if Direction(input.kind) != 0 {
        s := s.(direction := Direction(input.kind));
      }
      s := s.(lastNs := input.ns, lastStream := input.stream);
    }

    method Drain(room: nat) returns (out: seq<Record>)
      requires Valid()
      modifies ring
      ensures Valid()
      ensures out == Returned(old(ring.Contents()), Op.Drain(room))
      ensures ring.Contents() == Apply(old(ring.Contents()), Op.Drain(room), CAPACITY)
    {
      hide LinkedQueue, Apply, Returned;
      DrainKeepsLinks(RecordLayout(), ring.Contents(), room, s.chain, CAPACITY);
      out := ring.Drain(room);
    }
  }
}
