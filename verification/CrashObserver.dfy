/** The crash observer as it updates its state in place. */
module CrashObserver {
  import opened Bytes
  import opened RecordChain
  import opened RecordRing
  import opened CrashSpec

  const ZERO: Record := Record(0, 0, 0, 0, 0, 0, 0, 0, 0, 0, 0, 0, 0, 0, 0, 0)

  class Observer {
    const ring: Ring<Record>
    var t: Totals

    ghost predicate Valid()
      reads this, ring, ring.slots
    {
      && ring.Valid() && ring.slots.Length == CAPACITY
      && LinkedQueue(RecordLayout(), ring.Contents(), t.chain)
    }

    ghost function Value(): State
      requires Valid()
      reads this, ring, ring.slots
    {
      State(t, ring.Contents())
    }

    constructor ()
      ensures Valid() && fresh(ring) && fresh(ring.slots) && Value() == CrashSpec.Run([])
    {
      ring := new Ring(CAPACITY, ZERO);
      t := Totals(0, 0, 0, 0);
    }

    method RecordEvent(input: Input) returns (status: int)
      requires Valid()
      modifies this, ring, ring.slots
      ensures Valid() && status == EventStatus(old(t), input) && Value() == Step(old(Value()), Event(input))
    {
      hide Link, Content, Committed, LinkedQueue;
      if !KindValid(input.kind) {
        t := t.(rejected := (t.rejected + 1) % U32);
        return -2;
      }
      if input.ns == 0 || (t.lastNs != 0 && input.ns < t.lastNs) {
        t := t.(rejected := (t.rejected + 1) % U32);
        return -3;
      }
      StepKeepsLinks(Value(), Event(input));
      var record := Draft(input);
      var hash := if t.chain == 0 then OFFSET else t.chain;
      hash := HashBytes(hash, Content(record));
      LinkIs(t.chain, Content(record));
      record := record.(chain := hash);
      ring.Commit(record);
      t := t.(chain := hash, lastNs := input.ns, observed := (t.observed + 1) % U32);
      status := 0;
    }

    method Drain(room: nat) returns (out: seq<Record>)
      requires Valid()
      modifies ring
      ensures Valid() && out == Returned(old(ring.Contents()), RecordRing.Drain(room))
      ensures Value() == Step(old(Value()), Take(room))
    {
      hide LinkedQueue, Apply, Returned;
      StepKeepsLinks(Value(), Take(room));
      out := ring.Drain(room);
    }

    /** The queue and the clock start over; the chain and the counters go on. */
    method ResetEpoch()
      requires Valid()
      modifies this, ring, ring.slots
      ensures Valid() && Value() == Step(old(Value()), Reset)
    {
      var chain, observed, rejected := t.chain, t.observed, t.rejected;
      ring.Clear(ZERO);
      t := Totals(0, 0, 0, 0);
      t := t.(chain := chain, observed := observed, rejected := rejected);
    }
  }
}
