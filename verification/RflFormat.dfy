/** The store file: a 64-byte header followed by 64-byte records, each with its own CRC-32C. */
module RflFormat {
  import opened Bytes
  import opened Crc32c
  import opened CrcLinear
  import EmbeddedCrc
  import opened Words32

  const HEADER_BYTES: nat := 64
  const RECORD_BYTES: nat := 64
  const SLAB_RECORDS: nat := 64
  const MAGIC: int := 0x314C465241464152
  const VERSION: int := 1

  type i32 = x: int | -0x8000_0000 <= x < 0x8000_0000

  const FLAG_PREDICTION_VALID: bv32 := 1
  const FLAG_PREDICTION_CORRECT: bv32 := 2
  const FLAG_LEARNING_UPDATE: bv32 := 4

  datatype Record = Record(
    sequence: u64, monotonicNs: u64, context: bv64, eventType: u32, candidate: u32,
    predicted: u32, support: u32, cost: u32, memoryDelta: i32, auxHash: bv32,
    confidence: u16, error: u16, flags: bv32)

  datatype Header = Header(flags: u32, createdNs: u64, epoch: u64, committed: u64, checkpoint: u64, reserved: u32)

  datatype Status = Ok | ErrArg | ErrIo | ErrFormat | ErrCrc | ErrState | ErrCapacity

  // ----- Records

  const RECORD_WIDTHS: seq<nat> := [8, 8, 8, 4, 4, 4, 4, 4, 4, 4, 2, 2, 4]

  function Unsigned(x: i32): u32 {
    if x < 0 then x + U32 else x
  }

  function Signed(x: u32): i32 {
    if x >= 0x8000_0000 then x - U32 else x
  }

  function RecordValues(r: Record): (v: seq<nat>)
    ensures |v| == 13
  {
    [r.sequence, r.monotonicNs, r.context as int, r.eventType, r.candidate, r.predicted, r.support,
     r.cost, Unsigned(r.memoryDelta), r.auxHash as int, r.confidence, r.error, r.flags as int]
  }

  function RecordOf(v: seq<nat>): Record
    requires Fits(v, RECORD_WIDTHS)
  {
    Pow256Values();
    assert v[0] < Pow256(8) && v[1] < Pow256(8) && v[2] < Pow256(8) && v[3] < Pow256(4) && v[4] < Pow256(4);
    assert v[5] < Pow256(4) && v[6] < Pow256(4) && v[7] < Pow256(4) && v[8] < Pow256(4) && v[9] < Pow256(4);
    assert v[10] < Pow256(2) && v[11] < Pow256(2) && v[12] < Pow256(4);
    Record(v[0], v[1], v[2] as bv64, v[3], v[4], v[5], v[6], v[7], Signed(v[8]), v[9] as bv32,
           v[10], v[11], v[12] as bv32)
  }

  lemma RecordFits(r: Record)
    ensures Fits(RecordValues(r), RECORD_WIDTHS)
  {
    hide Pow256, RecordValues;
    Pow256Values();
    ValueBounds(r);
    var v, w := RecordValues(r), RECORD_WIDTHS;
    forall i | 0 <= i < 13 ensures v[i] < Pow256(w[i]) {
      assert w[i] == if i < 3 then 8 else if i == 10 || i == 11 then 2 else 4;
    }
  }

  lemma ValueBounds(r: Record)
    ensures forall i :: 0 <= i < 13 ==>
      RecordValues(r)[i] < if i < 3 then U64 else if i == 10 || i == 11 then U16 else U32
  {
    Word64(r.context);
    Word32(r.auxHash);
    Word32(r.flags);
  }

  lemma RecordValuesInverse(r: Record)
    requires Fits(RecordValues(r), RECORD_WIDTHS)
    ensures RecordOf(RecordValues(r)) == r
  {
    hide Fits, Pow256;
    Word64(r.context);
    Word32(r.auxHash);
    Word32(r.flags);
  }

  lemma RecordWidth()
    ensures Width(RECORD_WIDTHS) == 60
  {
    hide Width;
    TotalWidth(RECORD_WIDTHS, [0, 8, 16, 24, 28, 32, 36, 40, 44, 48, 52, 54, 56, 60]);
  }

  /** The checksum of a record is taken with its own field cleared. */
  function BodyCrc(body: seq<byte>): bv32 {
    Checksum(body + Zeros(4))
  }

  function Body(r: Record): (s: seq<byte>)
    ensures |s| == 60
  {
    RecordWidth();
    Pack(RecordValues(r), RECORD_WIDTHS)
  }

  function EncodeRecord(r: Record): (s: seq<byte>)
    ensures |s| == RECORD_BYTES
  {
    Body(r) + StoreLittle(BodyCrc(Body(r)))
  }

  predicate RecordOk(block: seq<byte>)
    requires |block| == RECORD_BYTES
  {
    Little(block[60..]) == BodyCrc(block[..60])
  }

  function DecodeRecord(block: seq<byte>): Record
    requires |block| == RECORD_BYTES
  {
    RecordWidth();
    RecordOf(Unpack(block[..60], RECORD_WIDTHS))
  }

  lemma RecordRoundTrip(r: Record)
    ensures RecordOk(EncodeRecord(r))
    ensures DecodeRecord(EncodeRecord(r)) == r
  {
    hide Body, BodyCrc, StoreLittle, Little, RecordOf;
    var block := EncodeRecord(r);
    assert block[..60] == Body(r) && block[60..] == StoreLittle(BodyCrc(Body(r)));
    StoreIs(BodyCrc(Body(r)), block[60..]);
    BodyRoundTrip(r);
  }

  lemma BodyRoundTrip(r: Record)
    ensures |Body(r)| == Width(RECORD_WIDTHS)
    ensures RecordOf(Unpack(Body(r), RECORD_WIDTHS)) == r
  {
    hide Width, Unpack, Pack, RecordValues, RecordOf, Fits;
    RecordWidth();
    RecordFits(r);
    UnpackPack(RecordValues(r), RECORD_WIDTHS);
    RecordValuesInverse(r);
  }

  lemma RecordSelfChecked(block: seq<byte>)
    requires |block| == RECORD_BYTES
    ensures RecordOk(block) <==> EmbeddedCrc.SelfChecked(block, 60)
  {
    hide Checksum, Little;
    assert block[60..64] == block[60..];
    assert EmbeddedCrc.Cleared(block, 60) == block[..60] + Zeros(4);
  }

  /** A record that passes its check is changed in four consecutive bytes, anywhere: it passes again
      exactly when nothing changed, or when it is the one change that a window across body and
      checksum cannot show. */
  lemma RecordBurstRejected(a: seq<byte>, b: seq<byte>, at: nat)
    requires |a| == |b| == RECORD_BYTES && RecordOk(a)
    requires at + 4 <= RECORD_BYTES && SameOutside(a, b, at)
    ensures RecordOk(b) <==> a == b || XorBytes(a, b)[at..at + 4] == EmbeddedCrc.BlindSpot(60, at)
  {
    hide RecordOk;
    RecordSelfChecked(a);
    RecordSelfChecked(b);
    EmbeddedCrc.BurstExact(a, b, 60, at);
  }

  /** In every window but two, a change of four bytes is always noticed. */
  lemma RecordUnchanged(a: seq<byte>, b: seq<byte>, at: nat)
    requires |a| == |b| == RECORD_BYTES && RecordOk(a)
    requires at + 4 <= RECORD_BYTES && at != 57 && at != 58 && SameOutside(a, b, at)
    ensures RecordOk(b) <==> a == b
  {
    hide RecordOk;
    RecordBurstRejected(a, b, at);
    assert EmbeddedCrc.BlindSpot(60, at) == Zeros(4);
    EmbeddedCrc.SameHaveNoDifference(a, b, at);
  }

  // ----- The header

  const HEADER_WIDTHS: seq<nat> := [8, 4, 4, 4, 4, 8, 8, 8, 8, 4, 4]
  const HEADER_OFFSETS: seq<nat> := [0, 8, 12, 16, 20, 24, 32, 40, 48, 56, 60, 64]

  function HeaderValues(h: Header, crc: u32): (v: seq<nat>)
    ensures |v| == 11
    ensures Fits(v, HEADER_WIDTHS)
  {
    Pow256Values();
    [MAGIC, VERSION, HEADER_BYTES, RECORD_BYTES, h.flags, h.createdNs, h.epoch, h.committed, h.checkpoint, crc, h.reserved]
  }

  lemma HeaderWidth()
    ensures Width(HEADER_WIDTHS) == HEADER_BYTES
  {
    hide Width;
    TotalWidth(HEADER_WIDTHS, HEADER_OFFSETS);
  }

  /** The header checksum of packed values, taken with its own field cleared, as it is stored. */
  function HeaderCrc(v: seq<nat>): (crc: u32)
    requires |v| == 11
  {
    HeaderWidth();
    Pow256Values();
    FromLittleEndian(StoreLittle(Checksum(Pack(v[9 := 0], HEADER_WIDTHS))))
  }

  function EncodeHeader(h: Header): (s: seq<byte>)
    ensures |s| == HEADER_BYTES
  {
    HeaderWidth();
    Pack(HeaderValues(h, HeaderCrc(HeaderValues(h, 0))), HEADER_WIDTHS)
  }

  function HeaderStatus(s: seq<byte>): Status
    requires |s| == HEADER_BYTES
  {
    HeaderWidth();
    var v := Unpack(s, HEADER_WIDTHS);
    if v[0] != MAGIC || v[1] != VERSION || v[2] != HEADER_BYTES || v[3] != RECORD_BYTES then ErrFormat
    else if v[9] != HeaderCrc(v) then ErrCrc
    else Ok
  }

  function DecodeHeader(s: seq<byte>): Header
    requires |s| == HEADER_BYTES
  {
    HeaderWidth();
    var v := Unpack(s, HEADER_WIDTHS);
    HeaderOf(v)
  }

  function HeaderOf(v: seq<nat>): Header
    requires Fits(v, HEADER_WIDTHS)
  {
    Pow256Values();
    assert v[4] < Pow256(4) && v[5] < Pow256(8) && v[6] < Pow256(8) && v[7] < Pow256(8) && v[8] < Pow256(8) && v[10] < Pow256(4);
    Header(v[4], v[5], v[6], v[7], v[8], v[10])
  }

  lemma HeaderRoundTrip(h: Header)
    ensures HeaderStatus(EncodeHeader(h)) == Ok
    ensures DecodeHeader(EncodeHeader(h)) == h
  {
    hide Checksum, Pack, Unpack, Width, Pow256, Fits, HeaderCrc;
    var crc := HeaderCrc(HeaderValues(h, 0));
    var v := HeaderValues(h, crc);
    HeaderWidth();
    UnpackPack(v, HEADER_WIDTHS);
    CrcIgnoresItself(h, crc);
  }

  lemma CrcIgnoresItself(h: Header, crc: u32)
    ensures HeaderCrc(HeaderValues(h, crc)) == HeaderCrc(HeaderValues(h, 0))
  {
    hide Checksum, Pack, Width, Pow256, Fits;
    assert HeaderValues(h, crc)[9 := 0] == HeaderValues(h, 0)[9 := 0];
  }

  // ----- The records of a file

  function EncodeAll(records: seq<Record>): (s: seq<byte>)
    ensures |s| == RECORD_BYTES * |records|
  {
    if records == [] then [] else EncodeRecord(records[0]) + EncodeAll(records[1..])
  }

  /** What replay recovers from the bytes after the header: the records up to the first one that is
      incomplete or fails its check. */
  function Recover(payload: seq<byte>): (records: seq<Record>)
    ensures RECORD_BYTES * |records| <= |payload|
  {
    if |payload| < RECORD_BYTES || !RecordOk(payload[..RECORD_BYTES]) then []
    else [DecodeRecord(payload[..RECORD_BYTES])] + Recover(payload[RECORD_BYTES..])
  }

  /** Replay reports a recovered tail when some bytes were left over. */
  predicate TailLost(payload: seq<byte>) {
    RECORD_BYTES * |Recover(payload)| != |payload|
  }

  lemma {:induction false} EncodeConcat(a: seq<Record>, b: seq<Record>)
    ensures EncodeAll(a + b) == EncodeAll(a) + EncodeAll(b)
  {
    hide EncodeRecord;
    if a == [] {
      assert a + b == b;
    } else {
      assert (a + b)[0] == a[0] && (a + b)[1..] == a[1..] + b;
      EncodeConcat(a[1..], b);
    }
  }

  /** Whole records in front are recovered whatever follows them. */
  lemma {:induction false} RecoverEncoded(records: seq<Record>, rest: seq<byte>)
    ensures Recover(EncodeAll(records) + rest) == records + Recover(rest)
  {
    hide EncodeRecord, RecordOk, DecodeRecord;
    var s := EncodeAll(records) + rest;
    if records == [] {
      assert s == rest;
    } else {
      RecordRoundTrip(records[0]);
      assert s[..RECORD_BYTES] == EncodeRecord(records[0]);
      assert s[RECORD_BYTES..] == EncodeAll(records[1..]) + rest;
      RecoverEncoded(records[1..], rest);
    }
  }

  /** A record that fails its check ends the recovered log exactly there, whatever follows it. */
  lemma BadRecordEndsLog(records: seq<Record>, bad: seq<byte>, rest: seq<byte>)
    requires |bad| == RECORD_BYTES && !RecordOk(bad)
    ensures Recover(EncodeAll(records) + bad + rest) == records
    ensures TailLost(EncodeAll(records) + bad + rest)
  {
    hide RecordOk, DecodeRecord, EncodeAll;
    assert EncodeAll(records) + bad + rest == EncodeAll(records) + (bad + rest);
    RecoverEncoded(records, bad + rest);
    assert (bad + rest)[..RECORD_BYTES] == bad;
  }

  /** Any byte prefix of written records gives back the records that are complete in it. */
  lemma {:induction false} RecoverPrefix(records: seq<Record>, n: nat)
    requires n <= RECORD_BYTES * |records|
    ensures Recover(EncodeAll(records)[..n]) == records[..n / RECORD_BYTES]
    ensures TailLost(EncodeAll(records)[..n]) <==> n % RECORD_BYTES != 0
  {
    hide EncodeRecord, RecordOk, DecodeRecord;
    var k := n / RECORD_BYTES;
    var whole, part := records[..k], EncodeAll(records)[RECORD_BYTES * k..n];
    assert records == whole + records[k..];
    EncodeConcat(whole, records[k..]);
    assert EncodeAll(records)[..n] == EncodeAll(whole) + part;
    RecoverEncoded(whole, part);
    assert Recover(part) == [];
    assert whole + [] == whole;
  }
}
