/** A fixed-capacity ring that overwrites its oldest record, drained in order from the old end. */
module RecordRing {
  import opened Arith
  import opened Bytes
  import opened RecordChain

  // ----- The queue it implements

  /** A commit appends; in a full queue the oldest record is dropped first. */
  function Committed<T>(q: seq<T>, x: T, capacity: nat): (r: seq<T>)
    requires capacity > 0
  {
    var all := q + [x];
    if |all| > capacity then all[1..] else all
  }

  /** How many records a drain returns, and what it leaves. */
  function Taken<T>(q: seq<T>, room: nat): (n: nat)
    ensures n <= |q| && n <= room
  {
    if |q| > room then room else |q|
  }

  datatype Op<T> = Commit(x: T) | Drain(room: nat)

  function Apply<T>(q: seq<T>, op: Op<T>, capacity: nat): seq<T>
    requires capacity > 0
  {
    match op
    case Commit(x) => Committed(q, x, capacity)
    case Drain(room) => q[Taken(q, room)..]
  }

  function Returned<T>(q: seq<T>, op: Op<T>): seq<T> {
    match op
    case Commit(_) => []
    case Drain(room) => q[..Taken(q, room)]
  }

  function Run<T>(q: seq<T>, ops: seq<Op<T>>, capacity: nat): seq<T>
    requires capacity > 0
    decreases |ops|
  {
    if ops == [] then q else Apply(Run(q, ops[..|ops| - 1], capacity), ops[|ops| - 1], capacity)
  }

  /** Everything committed so far, in order. */
  function History<T>(ops: seq<Op<T>>): seq<T>
    decreases |ops|
  {
    if ops == [] then []
    else
      var last := ops[|ops| - 1];
      History(ops[..|ops| - 1]) + if last.Commit? then [last.x] else []
  }

  /** How many records have been delivered or overwritten: nothing is delivered twice or out of order. */
  function Gone<T>(ops: seq<Op<T>>, capacity: nat): (n: nat)
    decreases |ops|
  {
    if ops == [] then 0
    else
      var before, last := ops[..|ops| - 1], ops[|ops| - 1];
      var gone, total := Gone(before, capacity), |History(before)|;
      match last
      case Commit(_) => if total + 1 > gone + capacity then gone + 1 else gone
      case Drain(room) => if total > gone + room then gone + room else if total > gone then total else gone
  }

  /** Over any interleaving the queue holds exactly the newest records of the history, at most
      `capacity` of them, and a record leaves only by being drained or overwritten. */
  lemma {:induction false} RunIsWindow<T>(ops: seq<Op<T>>, capacity: nat)
    requires capacity > 0
    ensures Gone(ops, capacity) <= |History(ops)|
    ensures Run([], ops, capacity) == History(ops)[Gone(ops, capacity)..]
    ensures |Run([], ops, capacity)| <= capacity
    decreases |ops|
  {
    if ops != [] {
      var before, last := ops[..|ops| - 1], ops[|ops| - 1];
      RunIsWindow(before, capacity);
      var q, gone, total := Run([], before, capacity), Gone(before, capacity), History(before);
      match last
      case Commit(x) => assert (total + [x])[gone..] == q + [x];
      case Drain(room) => assert q[Taken(q, room)..] == total[gone + Taken(q, room)..];
    }
  }

  /** The next drain returns the records that follow everything gone before, without a gap. */
  lemma DrainIsNext<T>(ops: seq<Op<T>>, room: nat, capacity: nat)
    requires capacity > 0
    ensures var q, n := Run([], ops, capacity), Gone(ops, capacity);
            n + Taken(q, room) <= |History(ops)|
            && Returned(q, Drain(room)) == History(ops)[n..n + Taken(q, room)]
            && Gone(ops + [Drain(room)], capacity) == n + Taken(q, room)
  {
    RunIsWindow(ops, capacity);
    var all := ops + [Drain(room)];
    assert all[..|all| - 1] == ops;
  }

  // ----- Linked records in the queue

  /** The records in the queue are linked to each other, and the newest one carries the tip. */
  predicate LinkedQueue<R>(layout: Layout<R>, q: seq<R>, tip: u64) {
    Adjacent(layout, q) && Tip(layout, tip, q) == tip
  }

  lemma CommitKeepsLinks<R>(layout: Layout<R>, q: seq<R>, r: R, tip: u64, capacity: nat)
    requires LinkedQueue(layout, q, tip) && layout.chain(r) == Link(tip, layout.content(r)) && capacity > 0
    ensures LinkedQueue(layout, Committed(q, r, capacity), layout.chain(r))
  {
    hide Link, Adjacent;
    GrowAdjacent(layout, q, r, tip);
    TailAdjacent(layout, q + [r], 1);
  }

  lemma DrainKeepsLinks<R>(layout: Layout<R>, q: seq<R>, room: nat, tip: u64, capacity: nat)
    requires LinkedQueue(layout, q, tip) && capacity > 0
    ensures LinkedQueue(layout, Apply(q, Op.Drain(room), capacity), tip)
  {
    hide Adjacent;
    TailAdjacent(layout, q, Taken(q, room));
  }

  // ----- The ring

  lemma Wraps(n: nat, capacity: nat)
    requires capacity > 0 && n < 2 * capacity
    ensures n % capacity == if n < capacity then n else n - capacity
  {
    DivisionUnique(if n < capacity then 0 else 1, if n < capacity then n else n - capacity, capacity, n);
  }

  class Ring<T> {
    const slots: array<T>
    var writeIndex: nat
    var readable: nat

    ghost predicate Valid()
      reads this
    {
      writeIndex < slots.Length && readable <= slots.Length
    }

    /** The slot of the `i`-th oldest readable record. */
    ghost function Slot(i: nat): (k: nat)
      reads this
      requires Valid() && i < slots.Length
      ensures k < slots.Length
    {
      var at := (if writeIndex >= readable then writeIndex - readable else writeIndex + slots.Length - readable) + i;
      if at < slots.Length then at else at - slots.Length
    }

    ghost function Contents(): (q: seq<T>)
      reads this, slots
      requires Valid()
      ensures |q| == readable
    {
      seq(readable, i requires 0 <= i < readable reads this, slots requires Valid() => slots[Slot(i)])
    }

    constructor (capacity: nat, zero: T)
      requires capacity > 0
      ensures Valid() && fresh(slots) && slots.Length == capacity && Contents() == []
    {
      slots := new T[capacity](_ => zero);
      writeIndex, readable := 0, 0;
    }

    method Commit(x: T)
      requires Valid()
      modifies this, slots
      ensures Valid() && Contents() == Committed(old(Contents()), x, slots.Length)
    {
      ghost var all := Contents() + [x];
      Wraps(writeIndex, slots.Length);
      slots[writeIndex % slots.Length] := x;
      Wraps(writeIndex + 1, slots.Length);
      writeIndex := (writeIndex + 1) % slots.Length;
      if readable < slots.Length {
        readable := readable + 1;
        assert Contents() == all;
      } else {
        assert Contents() == all[1..];
      }
    }

    method Drain(room: nat) returns (out: seq<T>)
      requires Valid()
      modifies this
      ensures Valid()
      ensures out == Returned(old(Contents()), Op.Drain(room))
      ensures Contents() == Apply(old(Contents()), Op.Drain(room), slots.Length)
    {
      if room == 0 {
        return [];
      }
      var count := if readable > room then room else readable;
      ghost var all := Contents();
      Wraps(writeIndex + slots.Length - readable, slots.Length);
      var oldest := (writeIndex + slots.Length - readable) % slots.Length;
      out := [];
      for i := 0 to count
        modifies {}
        invariant out == all[..i]
      {
        Wraps(oldest + i, slots.Length);
        out := out + [slots[(oldest + i) % slots.Length]];
      }
      readable := readable - count;
      assert Contents() == all[count..];
    }

    /** Everything unread is forgotten. */
    method Clear(zero: T)
      requires Valid()
      modifies this, slots
      ensures Valid() && Contents() == []
    {
      for i := 0 to slots.Length {
        slots[i] := zero;
      }
      writeIndex, readable := 0, 0;
    }
  }
}
