/** Where the fields of a sealed page lie, and which pages verify. */
module PageLayout {
  import opened Bytes
  import opened Crc32c
  import opened Fold128
  import opened Neon4096

  lemma FieldOf(p: PageValue, i: nat)
    requires p.Shape() && i < 10
    ensures Field(Flat(p), OFFSETS[i], OFFSETS[i + 1], ControlValues(p.control)[i])
  {
    hide Flat, LittleEndian, ControlValues;
    FieldBytes(p, i);
  }

  /** A sealed page: eight bytes that spell RAFAN4K1, version 1, the flag of the vector kernel, the caller's
      sequence, size and route, the checksums of the three regions, and behind the page checksum the fold;
      the regions follow in three equal parts. */
  lemma SealedLayout(p: PageValue, sequence: u64, payloadBytes: u32, ownerRoute: u32, neonCompiled: bool)
    requires p.Shape()
    ensures var s := Flat(Sealed(p, sequence, payloadBytes, ownerRoute, neonCompiled));
      && s[..8] == [0x52, 0x41, 0x46, 0x41, 0x4e, 0x34, 0x4b, 0x31]
      && Field(s, 8, 12, 1) && Field(s, 12, 16, if neonCompiled then 2 else 0) && Field(s, 16, 24, sequence)
      && Field(s, 24, 28, payloadBytes) && Field(s, 28, 32, ownerRoute)
      && Field(s, 32, 36, Checksum(s[64..1408]) as int) && Field(s, 36, 40, Checksum(s[1408..2752]) as int)
      && Field(s, 40, 44, Checksum(s[2752..4096]) as int)
      && s[48..64] == Fold(s[64..4096])
      && s[64..1408] == p.hot && s[1408..2752] == p.buffer && s[2752..4096] == p.storage
  {
    hide Flat, LittleEndian, Checksum, Fold, PageCrc, Field;
    var q := Sealed(p, sequence, payloadBytes, ownerRoute, neonCompiled);
    var s := Flat(q);
    FieldOf(q, 0);
    FieldOf(q, 1);
    FieldOf(q, 2);
    FieldOf(q, 3);
    FieldOf(q, 4);
    FieldOf(q, 5);
    FieldOf(q, 6);
    FieldOf(q, 7);
    FieldOf(q, 8);
    Regions(q);
    Payload(s, p.hot, p.buffer, p.storage);
    MagicField(s);
  }

  lemma Payload(s: seq<byte>, a: seq<byte>, b: seq<byte>, c: seq<byte>)
    requires |s| == 4096 && s[64..1408] == a && s[1408..2752] == b && s[2752..4096] == c
    ensures s[64..4096] == a + b + c
  {
  }

  lemma MagicField(s: seq<byte>)
    requires |s| == 4096 && Field(s, 0, 8, 0x314B344E41464152)
    ensures s[..8] == [0x52, 0x41, 0x46, 0x41, 0x4e, 0x34, 0x4b, 0x31]
  {
    var bytes: seq<byte> := [0x52, 0x41, 0x46, 0x41, 0x4e, 0x34, 0x4b, 0x31];
    assert FromLittleEndian(bytes) == 0x314B344E41464152;
    EncodeDecode(bytes);
    assert s[..8] == s[0..8];
  }

  /** The pages that verify are exactly those that sealing makes, of the payload and the fields they hold;
      only the flags are free. */
  lemma VerifiesExactly(p: PageValue)
    requires p.Shape() && p.control.flags in {0, 2}
    ensures var c := p.control;
      VerifyStatus(p) == Ok <==>
        c.payloadBytes <= 4032 && c.ownerRoute <= 3 && p == Sealed(p, c.sequence, c.payloadBytes, c.ownerRoute, c.flags == 2)
  {
    hide Flat, Checksum, Fold, PayloadFold;
    var c := p.control;
    var q := Sealed(p, c.sequence, c.payloadBytes, c.ownerRoute, c.flags == 2);
    if p.control == q.control.(crcPage := p.control.crcPage) {
      assert CrcCleared(p) == CrcCleared(q);
    }
  }

  /** Whatever the flags say, a page with the wrong magic, version, size or route is refused as such before
      any checksum is looked at. */
  lemma RefusedFirst(p: PageValue)
    requires p.Shape()
    ensures VerifyStatus(p) == ErrContract <==>
              Flat(p)[..12] != [0x52, 0x41, 0x46, 0x41, 0x4e, 0x34, 0x4b, 0x31, 1, 0, 0, 0]
              || p.control.payloadBytes > 4032 || p.control.ownerRoute > 3
  {
    hide Flat, LittleEndian, ChecksumsHold;
    var s := Flat(p);
    FieldBytes(p, 0);
    FieldBytes(p, 1);
    assert s[..12] == s[0..8] + s[8..12];
    Prefix(p.control.magic, p.control.version);
  }

  lemma Prefix(magic: u64, version: u32)
    ensures LittleEndian(magic, 8) + LittleEndian(version, 4) == [0x52, 0x41, 0x46, 0x41, 0x4e, 0x34, 0x4b, 0x31, 1, 0, 0, 0]
       <==> magic == 0x314B344E41464152 && version == 1
  {
    hide LittleEndian;
    var m: seq<byte>, v: seq<byte> := [0x52, 0x41, 0x46, 0x41, 0x4e, 0x34, 0x4b, 0x31], [1, 0, 0, 0];
    assert FromLittleEndian(m) == 0x314B344E41464152 && FromLittleEndian(v) == 1;
    EncodeDecode(m);
    EncodeDecode(v);
    Pow256Values();
    if LittleEndian(magic, 8) + LittleEndian(version, 4) == m + v {
      assert LittleEndian(magic, 8) == (m + v)[..8] == m && LittleEndian(version, 4) == (m + v)[8..] == v;
      LittleEndianInjective(magic, 0x314B344E41464152, 8);
      LittleEndianInjective(version, 1, 4);
    }
  }
}
