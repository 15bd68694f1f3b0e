/** The bytes that the links of the two evidence recorders cover. */
module LinkedBytes {
  import opened Bytes
  import opened RecordChain
  import LogContents
  import CrashSpec
  import RecorderSpec
  import RecorderProofs

  const CRASH_OFFSETS: seq<nat> := [0, 8, 16, 24, 32, 40, 48, 56, 60, 64, 68, 72, 76, 80, 82, 84, 88]
  const RECORDER_OFFSETS: seq<nat> := [0, 8, 16, 24, 28, 32, 36, 40, 44, 48, 50, 52, 54, 56, 58, 60, 62, 64]

  lemma Offsets()
    ensures OffsetsOf(CrashSpec.WIDTHS, CRASH_OFFSETS) && OffsetsOf(RecorderSpec.WIDTHS, RECORDER_OFFSETS)
  {
  }

  lemma CrashField(r: CrashSpec.Record, i: nat)
    requires i < 16
    ensures Field(CrashSpec.Content(r), CRASH_OFFSETS[i], CRASH_OFFSETS[i + 1], CrashSpec.Values(r)[i])
  {
    hide Pack, OffsetsOf, Field, CrashSpec.Values;
    Offsets();
    LogContents.FieldOf(CrashSpec.Content(r), CrashSpec.Values(r), CrashSpec.WIDTHS, CRASH_OFFSETS, i);
  }

  lemma RecorderField(r: RecorderSpec.Record, i: nat)
    requires i < 17
    ensures Field(RecorderSpec.Content(r), RECORDER_OFFSETS[i], RECORDER_OFFSETS[i + 1], RecorderSpec.Values(r)[i])
  {
    hide Pack, OffsetsOf, Field, RecorderSpec.Values;
    Offsets();
    LogContents.FieldOf(RecorderSpec.Content(r), RecorderSpec.Values(r), RecorderSpec.WIDTHS, RECORDER_OFFSETS, i);
  }

  /** A record of the crash observer: 88 bytes, its link left out, four zero bytes at the end. */
  lemma CrashBytes(r: CrashSpec.Record)
    ensures var s := CrashSpec.Content(r);
      && Field(s, 0, 8, r.ns) && Field(s, 8, 16, r.packageTag) && Field(s, 16, 24, r.processTag)
      && Field(s, 24, 32, r.correlation) && Field(s, 32, 40, r.pc) && Field(s, 40, 48, r.sp)
      && Field(s, 48, 56, r.faultAddress) && Field(s, 56, 60, r.pid) && Field(s, 60, 64, r.tid)
      && Field(s, 64, 68, r.uid) && Field(s, 68, 72, r.status) && Field(s, 72, 76, r.reason)
      && Field(s, 76, 80, r.flags as int) && Field(s, 80, 82, r.kind) && Field(s, 82, 84, r.schemaVersion)
      && Field(s, 84, 88, 0)
  {
    hide Field, CrashSpec.Content;
    CrashField(r, 0);
    CrashField(r, 1);
    CrashField(r, 2);
    CrashField(r, 3);
    CrashField(r, 4);
    CrashField(r, 5);
    CrashField(r, 6);
    CrashField(r, 7);
    CrashField(r, 8);
    CrashField(r, 9);
    CrashField(r, 10);
    CrashField(r, 11);
    CrashField(r, 12);
    CrashField(r, 13);
    CrashField(r, 14);
    CrashField(r, 15);
  }

  /** A record of the stability recorder: 64 bytes, its link left out. First the event, then the measures. */
  lemma RecorderBytes(r: RecorderSpec.Record)
    ensures var s := RecorderSpec.Content(r);
      && Field(s, 0, 8, r.ns) && Field(s, 8, 16, r.stream) && Field(s, 16, 24, r.peer) && Field(s, 24, 28, r.pid)
      && Field(s, 28, 32, r.tid) && Field(s, 32, 36, r.descriptor) && Field(s, 36, 40, r.byteCount)
      && Field(s, 40, 44, r.latency) && Field(s, 44, 48, r.flags as int) && Field(s, 48, 50, r.kind)
  {
    hide Field, RecorderSpec.Content;
    RecorderField(r, 0);
    RecorderField(r, 1);
    RecorderField(r, 2);
    RecorderField(r, 3);
    RecorderField(r, 4);
    RecorderField(r, 5);
    RecorderField(r, 6);
    RecorderField(r, 7);
    RecorderField(r, 8);
    RecorderField(r, 9);
  }

  lemma RecorderMeasures(r: RecorderSpec.Record)
    ensures var s := RecorderSpec.Content(r);
      && Field(s, 50, 52, r.stability) && Field(s, 52, 54, r.baseline) && Field(s, 54, 56, r.delta)
      && Field(s, 56, 58, r.alternation) && Field(s, 58, 60, r.burst) && Field(s, 60, 62, r.gc)
      && Field(s, 62, 64, r.decision)
  {
    hide Field, RecorderSpec.Content;
    RecorderField(r, 10);
    RecorderField(r, 11);
    RecorderField(r, 12);
    RecorderField(r, 13);
    RecorderField(r, 14);
    RecorderField(r, 15);
    RecorderField(r, 16);
  }

  /** The records that a new recorder commits are linked from an empty chain on. */
  lemma NewChain(tag: u64, p: RecorderSpec.Policy, inputs: seq<RecorderSpec.Input>)
    ensures Linked(RecorderSpec.RecordLayout(), 0,
                   RecorderProofs.CommittedBy(RecorderSpec.Initial(tag), p, inputs))
  {
    hide RecorderProofs.CommittedBy, Linked;
    RecorderProofs.CommittedLinked(RecorderSpec.Initial(tag), p, inputs);
  }
}
