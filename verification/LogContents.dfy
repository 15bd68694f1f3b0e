/** What a stored record says about the observation it was made for, and where every field of header and
    record lies in the file. */
module LogContents {
  import opened Bytes
  import opened Predictor
  import opened RflFormat
  import opened LearningModel
  import Words32

  // ----- The fields of a record

  function Clamp(x: int, low: int, high: int): int {
    if x < low then low else if x > high then high else x
  }

  /** The prediction that an observation is compared with. */
  function Asked(m: Model, mode: Mode, input: Input): Prediction {
    if mode in {2, 3} then Predict(m.table, input.context) else NoPrediction
  }

  lemma FlagBits(mode: Mode, f: Prediction, candidate: u32)
    ensures (FlagsOf(mode, f, candidate) >> 8) & 7 == ModeWord(mode)
    ensures FlagsOf(mode, f, candidate) & 0xffff_f8f8 == 0
  {
  }

  function ModeWord(mode: Mode): bv32 {
    match mode case 0 => 0 case 1 => 1 case 2 => 2 case 3 => 3 case _ => 4
  }

  lemma AuxWord(aux: bv64)
    ensures FoldAux(aux) as bv64 == (aux >> 32) ^ (aux & 0xffff_ffff)
  {
  }

  /** A record holds the observation, with cost and memory change clamped to 32 bits and the auxiliary hash
      folded; the mode in three bits of the flags; and the prediction made for it, if there was one, with a
      confidence and an error that add up to one. */
  lemma RecordTells(m: Model, mode: Mode, input: Input)
    ensures var r, p := RecordFor(m, mode, input), Asked(m, mode, input);
      && r.sequence == m.nextSequence && r.monotonicNs == input.startedNs
      && r.context == input.context && r.eventType == input.eventType && r.candidate == input.candidate
      && r.cost == Clamp(input.cost, 0, 0xffff_ffff)
      && r.memoryDelta == Clamp(input.memoryDelta, -0x8000_0000, 0x7fff_ffff)
      && (p.Predicted? ==> r.predicted == p.candidate && r.support == p.support && r.confidence == p.confidence)
      && (p == NoPrediction ==> r.predicted == r.support == r.confidence == 0)
      && r.confidence + r.error == 65535
    ensures RecordFor(m, mode, input).auxHash as bv64 == (input.aux >> 32) ^ (input.aux & 0xffff_ffff)
  {
    hide Predict, FlagsOf, FoldAux;
    AuxWord(input.aux);
  }

  lemma RecordFlags(m: Model, mode: Mode, input: Input)
    ensures var r, p := RecordFor(m, mode, input), Asked(m, mode, input);
      && (HasFlag(r, FLAG_PREDICTION_VALID) <==> p.Predicted?)
      && (HasFlag(r, FLAG_PREDICTION_CORRECT) <==> p.Predicted? && p.candidate == input.candidate)
      && (HasFlag(r, FLAG_LEARNING_UPDATE) <==> mode in {2, 3})
      && (r.flags >> 8) & 7 == ModeWord(mode) && r.flags & 0xffff_f8f8 == 0
  {
    hide Predict, FlagsOf, FoldAux, ModeWord;
    FlagsMeaning(mode, Asked(m, mode, input), input.candidate);
    FlagBits(mode, Asked(m, mode, input), input.candidate);
  }

  // ----- The memory total

  /** The total follows the changes, but stays between zero and the largest signed number; the high-water
      mark is the largest total seen. */
  lemma MemoryClamped(m: Model, mode: Mode, input: Input)
    requires m.tracked <= 0x7fff_ffff_ffff_ffff
    ensures var o := LearningModel.Observed(m, mode, input);
      && o.tracked == Clamp(m.tracked + input.memoryDelta, 0, 0x7fff_ffff_ffff_ffff)
      && o.highWater == if o.tracked > m.highWater then o.tracked else m.highWater
  {
    hide Predict, Learn;
  }

  // ----- The layout of the file

  lemma FieldAt(values: seq<nat>, widths: seq<nat>, offsets: seq<nat>, i: nat)
    requires OffsetsOf(widths, offsets) && |values| == |widths| && i < |values|
    ensures offsets[i] <= offsets[i + 1] <= |Pack(values, widths)|
    ensures Pack(values, widths)[offsets[i]..offsets[i + 1]] == LittleEndian(values[i], widths[i])
  {
    hide Pack, Width, LittleEndian;
    WidthAt(widths, offsets, i);
    PackSlice(values, widths, i);
  }

  const RECORD_OFFSETS: seq<nat> := [0, 8, 16, 24, 28, 32, 36, 40, 44, 48, 52, 54, 56, 60]

  lemma Offsets()
    ensures OffsetsOf(RECORD_WIDTHS, RECORD_OFFSETS) && OffsetsOf(HEADER_WIDTHS, HEADER_OFFSETS)
  {
  }

  lemma FieldOf(block: seq<byte>, values: seq<nat>, widths: seq<nat>, offsets: seq<nat>, i: nat)
    requires OffsetsOf(widths, offsets) && |values| == |widths| && i < |values|
    requires Pack(values, widths) <= block
    ensures Field(block, offsets[i], offsets[i + 1], values[i])
  {
    hide Pack, LittleEndian, OffsetsOf, Width;
    StepOf(widths, offsets, i);
    FieldAt(values, widths, offsets, i);
    FieldInPrefix(block, Pack(values, widths), offsets[i], offsets[i + 1], values[i]);
  }

  lemma FieldInPrefix(block: seq<byte>, packed: seq<byte>, from: nat, to: nat, value: nat)
    requires packed <= block && from <= to <= |packed| && packed[from..to] == LittleEndian(value, to - from)
    ensures Field(block, from, to, value)
  {
    hide LittleEndian;
    assert block[from..to] == packed[from..to];
  }

  lemma StepOf(widths: seq<nat>, offsets: seq<nat>, i: nat)
    requires OffsetsOf(widths, offsets) && i < |widths|
    ensures |offsets| == |widths| + 1 && offsets[i + 1] - offsets[i] == widths[i]
  {
  }

  lemma RecordField(r: Record, i: nat)
    requires i < 13
    ensures Field(EncodeRecord(r), RECORD_OFFSETS[i], RECORD_OFFSETS[i + 1], RecordValues(r)[i])
  {
    hide Pack, OffsetsOf, Field, RecordValues, BodyCrc, Words32.StoreLittle;
    RecordWidth();
    Offsets();
    FieldOf(EncodeRecord(r), RecordValues(r), RECORD_WIDTHS, RECORD_OFFSETS, i);
  }

  /** A record is laid out as 64 bytes, every field with its least significant byte first. */
  lemma RecordLayout(r: Record)
    ensures var s := EncodeRecord(r);
      && Field(s, 0, 8, r.sequence) && Field(s, 8, 16, r.monotonicNs) && Field(s, 16, 24, r.context as int)
      && Field(s, 24, 28, r.eventType) && Field(s, 28, 32, r.candidate) && Field(s, 32, 36, r.predicted)
      && Field(s, 36, 40, r.support) && Field(s, 40, 44, r.cost)
      && Field(s, 44, 48, if r.memoryDelta < 0 then r.memoryDelta + U32 else r.memoryDelta)
      && Field(s, 48, 52, r.auxHash as int) && Field(s, 52, 54, r.confidence) && Field(s, 54, 56, r.error)
      && Field(s, 56, 60, r.flags as int)
  {
    hide Field, EncodeRecord;
    RecordField(r, 0);
    RecordField(r, 1);
    RecordField(r, 2);
    RecordField(r, 3);
    RecordField(r, 4);
    RecordField(r, 5);
    RecordField(r, 6);
    RecordField(r, 7);
    RecordField(r, 8);
    RecordField(r, 9);
    RecordField(r, 10);
    RecordField(r, 11);
    RecordField(r, 12);
  }

  lemma HeaderField(h: Header, i: nat)
    requires i < 11 && i != 9
    ensures Field(EncodeHeader(h), HEADER_OFFSETS[i], HEADER_OFFSETS[i + 1], HeaderValues(h, 0)[i])
  {
    hide Pack, OffsetsOf, Field, HeaderCrc, Fits, Pow256;
    HeaderWidth();
    Offsets();
    FieldOf(EncodeHeader(h), HeaderValues(h, HeaderCrc(HeaderValues(h, 0))), HEADER_WIDTHS, HEADER_OFFSETS, i);
  }

  /** The header: eight bytes that spell RAFARFL1, version 1, the two block sizes, and the fields. */
  lemma HeaderLayout(h: Header)
    ensures var s := EncodeHeader(h);
      && s[..8] == [0x52, 0x41, 0x46, 0x41, 0x52, 0x46, 0x4c, 0x31]
      && Field(s, 8, 12, 1) && Field(s, 12, 16, 64) && Field(s, 16, 20, 64) && Field(s, 20, 24, h.flags)
      && Field(s, 24, 32, h.createdNs) && Field(s, 32, 40, h.epoch) && Field(s, 40, 48, h.committed)
      && Field(s, 48, 56, h.checkpoint) && Field(s, 60, 64, h.reserved)
  {
    hide EncodeHeader, LittleEndian, Fits, Pow256;
    HeaderField(h, 0);
    HeaderField(h, 1);
    HeaderField(h, 2);
    HeaderField(h, 3);
    HeaderField(h, 4);
    HeaderField(h, 5);
    HeaderField(h, 6);
    HeaderField(h, 7);
    HeaderField(h, 8);
    HeaderField(h, 10);
    MagicBytes();
    assert EncodeHeader(h)[..8] == EncodeHeader(h)[0..8];
  }

  /** The number whose stored bytes are given is read back from them. */
  lemma MagicBytes()
    ensures LittleEndian(0x314C465241464152, 8) == [0x52, 0x41, 0x46, 0x41, 0x52, 0x46, 0x4c, 0x31]
  {
    var s: seq<byte> := [0x52, 0x41, 0x46, 0x41, 0x52, 0x46, 0x4c, 0x31];
    assert FromLittleEndian(s) == 0x314C465241464152;
    EncodeDecode(s);
  }

  // ----- Which headers are refused

  lemma HeaderValueAt(s: seq<byte>, i: nat)
    requires |s| == HEADER_BYTES == Width(HEADER_WIDTHS) && i < 11
    ensures Field(s, HEADER_OFFSETS[i], HEADER_OFFSETS[i + 1], Unpack(s, HEADER_WIDTHS)[i])
  {
    hide Pack, Unpack, OffsetsOf, Field, Width, Pow256;
    Offsets();
    PackUnpack(s, HEADER_WIDTHS);
    FieldOf(s, Unpack(s, HEADER_WIDTHS), HEADER_WIDTHS, HEADER_OFFSETS, i);
  }

  /** A file that does not begin with the twenty bytes of this format and version is refused as such, before
      the checksum is looked at. */
  lemma FormatRefused(s: seq<byte>)
    requires |s| == HEADER_BYTES
    ensures HeaderStatus(s) == ErrFormat <==>
      s[..20] != [0x52, 0x41, 0x46, 0x41, 0x52, 0x46, 0x4c, 0x31, 1, 0, 0, 0, 64, 0, 0, 0, 64, 0, 0, 0]
  {
    hide LittleEndian, HeaderCrc, Unpack, Width, Fits, Pow256;
    HeaderWidth();
    var v := Unpack(s, HEADER_WIDTHS);
    HeaderValueAt(s, 0);
    HeaderValueAt(s, 1);
    HeaderValueAt(s, 2);
    HeaderValueAt(s, 3);
    FirstFits(s, v);
    FirstFour(s, v[0], v[1], v[2], v[3]);
  }

  lemma FirstFits(s: seq<byte>, v: seq<nat>)
    requires |s| == HEADER_BYTES == Width(HEADER_WIDTHS) && v == Unpack(s, HEADER_WIDTHS)
    ensures |v| == 11 && v[0] < U64 && v[1] < U32 && v[2] < U32 && v[3] < U32
  {
    hide Unpack, Pow256, Width;
    Pow256Values();
    assert v[0] < Pow256(8) && v[1] < Pow256(4) && v[2] < Pow256(4) && v[3] < Pow256(4);
  }

  lemma SmallBytes()
    ensures LittleEndian(1, 4) == [1, 0, 0, 0] && LittleEndian(64, 4) == [64, 0, 0, 0]
  {
    var one: seq<byte>, size: seq<byte> := [1, 0, 0, 0], [64, 0, 0, 0];
    assert FromLittleEndian(one) == 1 && FromLittleEndian(size) == 64;
    EncodeDecode(one);
    EncodeDecode(size);
  }

  lemma FirstFour(s: seq<byte>, magic: u64, version: u32, header: u32, record: u32)
    requires |s| == HEADER_BYTES
    requires Field(s, 0, 8, magic) && Field(s, 8, 12, version) && Field(s, 12, 16, header) && Field(s, 16, 20, record)
    ensures s[..20] == [0x52, 0x41, 0x46, 0x41, 0x52, 0x46, 0x4c, 0x31, 1, 0, 0, 0, 64, 0, 0, 0, 64, 0, 0, 0]
       <==> magic == 0x314C465241464152 && version == 1 && header == 64 && record == 64
  {
    hide LittleEndian, Pow256;
    MagicBytes();
    SmallBytes();
    Pow256Values();
    FourPieces(s);
    var m: seq<byte>, one: seq<byte>, size: seq<byte> :=
      [0x52, 0x41, 0x46, 0x41, 0x52, 0x46, 0x4c, 0x31], [1, 0, 0, 0], [64, 0, 0, 0];
    SamePieces(s[0..8], s[8..12], s[12..16], s[16..20], m, one, size);
    if s[0..8] == m { LittleEndianInjective(magic, 0x314C465241464152, 8); }
    if s[8..12] == one { LittleEndianInjective(version, 1, 4); }
    if s[12..16] == size { LittleEndianInjective(header, 64, 4); }
    if s[16..20] == size { LittleEndianInjective(record, 64, 4); }
  }

  lemma FourPieces(s: seq<byte>)
    requires |s| == HEADER_BYTES
    ensures s[..20] == s[0..8] + s[8..12] + s[12..16] + s[16..20]
  {
  }

  lemma SamePieces(a: seq<byte>, b: seq<byte>, c: seq<byte>, d: seq<byte>, m: seq<byte>, one: seq<byte>, size: seq<byte>)
    requires |a| == |m| && |b| == |c| == |d| == |one| == |size|
    ensures a + b + c + d == m + one + size + size <==> a == m && b == one && c == size && d == size
  {
    if a + b + c + d == m + one + size + size {
      var x, y, i, j, k := a + b + c + d, m + one + size + size, |a|, |a| + |b|, |a| + |b| + |c|;
      assert a == x[..i] && b == x[i..j] && c == x[j..k] && d == x[k..];
      assert m == y[..i] && one == y[i..j] && size == y[j..k] && size == y[k..];
    }
  }
}
