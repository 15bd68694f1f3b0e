/** Which events the crash observer takes, what it records of them, and how much it keeps. */
module CrashRecords {
  import opened Bytes
  import opened RecordChain
  import RecordRing
  import opened CrashSpec

  /** The kinds 1 to 9 are known; time must be positive and must not go back within an epoch. */
  lemma StatusMeans(t: Totals, input: Input)
    ensures EventStatus(t, input) == -2 <==> input.kind == 0 || input.kind > 9
    ensures EventStatus(t, input) == -3 <==> 1 <= input.kind <= 9 && (input.ns == 0 || input.ns < t.lastNs)
    ensures EventStatus(t, input) in {0, -2, -3}
  {
  }

  /** A record holds the event with the top flag set, and schema version 1. */
  lemma RecordTells(chain: u64, input: Input)
    ensures var r := NewRecord(chain, input);
      && r == Record(input.ns, input.packageTag, input.processTag, input.correlation, input.pc, input.sp,
                     input.faultAddress, Link(chain, Content(r)), input.pid, input.tid, input.uid, input.status,
                     input.reason, r.flags, input.kind, 1)
      && r.flags & 0x8000_0000 == 0x8000_0000 && r.flags & 0x7fff_ffff == input.flags & 0x7fff_ffff
  {
    hide Link, Pack, Triggered;
    TopFlag(input.flags);
  }

  lemma TopFlag(flags: bv32)
    ensures Triggered(flags) & 0x8000_0000 == 0x8000_0000 && Triggered(flags) & 0x7fff_ffff == flags & 0x7fff_ffff
  {
  }

  /** After accepted events only, the queue holds all of them up to 128, and then the newest 128. */
  lemma {:induction false} QueueLength(ops: seq<Op>)
    requires forall i :: 0 <= i < |ops| ==> ops[i].Event? && EventStatus(Run(ops[..i]).t, ops[i].input) == 0
    ensures |Run(ops).queue| == if |ops| <= 128 then |ops| else 128
    decreases |ops|
  {
    hide NewRecord, EventStatus, Totalled;
    if ops != [] {
      var front := ops[..|ops| - 1];
      forall i | 0 <= i < |front| ensures front[i].Event? && EventStatus(Run(front[..i]).t, front[i].input) == 0 {
        assert front[..i] == ops[..i];
      }
      QueueLength(front);
    }
  }
}
