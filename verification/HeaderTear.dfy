/** A header write that is interrupted: new fields with the old checksum. */
module HeaderTear {
  import opened Bytes
  import opened Crc32c
  import opened CrcLinear
  import opened EmbeddedCrc
  import opened RflFormat
  import opened Words32

  const COMMITTED_AT: nat := 40

  lemma FieldAt(v: seq<nat>, i: nat)
    requires |v| == 11 && i < 11
    ensures |Pack(v, HEADER_WIDTHS)| == HEADER_BYTES
    ensures HEADER_OFFSETS[i] + HEADER_WIDTHS[i] == HEADER_OFFSETS[i + 1] <= HEADER_BYTES
    ensures Pack(v, HEADER_WIDTHS)[HEADER_OFFSETS[i]..HEADER_OFFSETS[i + 1]] == LittleEndian(v[i], HEADER_WIDTHS[i])
  {
    hide Width, Pack, LittleEndian;
    HeaderWidth();
    WidthAt(HEADER_WIDTHS, HEADER_OFFSETS, i);
    PackSlice(v, HEADER_WIDTHS, i);
  }

  /** Bytes before a field depend on the earlier values only, bytes behind it on the later ones. */
  lemma AroundField(v: seq<nat>, w: seq<nat>, i: nat)
    requires |v| == |w| == 11 && i < 11 && w == v[i := w[i]]
    ensures |Pack(v, HEADER_WIDTHS)| == |Pack(w, HEADER_WIDTHS)| == HEADER_BYTES
    ensures HEADER_OFFSETS[i] <= HEADER_OFFSETS[i + 1] <= HEADER_BYTES
    ensures Pack(v, HEADER_WIDTHS)[..HEADER_OFFSETS[i]] == Pack(w, HEADER_WIDTHS)[..HEADER_OFFSETS[i]]
    ensures Pack(v, HEADER_WIDTHS)[HEADER_OFFSETS[i + 1]..] == Pack(w, HEADER_WIDTHS)[HEADER_OFFSETS[i + 1]..]
  {
    hide Width, Pack, LittleEndian;
    HeaderWidth();
    PackAround(v, w, HEADER_WIDTHS, HEADER_OFFSETS, i);
  }

  /** Two headers that differ in a record count below 2^32 have different checksums. */
  lemma ChecksumsDiffer(a: Header, b: Header)
    requires b == a.(committed := b.committed) && a.committed != b.committed
    requires a.committed < U32 && b.committed < U32
    ensures HeaderCrc(HeaderValues(a, 0)) != HeaderCrc(HeaderValues(b, 0))
  {
    hide Width, Pack, LittleEndian, Checksum, Pow256;
    var v, w := HeaderValues(a, 0), HeaderValues(b, 0);
    var s, t := Pack(v, HEADER_WIDTHS), Pack(w, HEADER_WIDTHS);
    assert w == v[7 := w[7]];
    AroundField(v, w, 7);
    FieldAt(v, 7);
    FieldAt(w, 7);
    Pow256Values();
    HighBytesZero(a.committed, 4, 8);
    HighBytesZero(b.committed, 4, 8);
    forall i | 0 <= i < HEADER_BYTES && !(COMMITTED_AT <= i < COMMITTED_AT + 4) ensures s[i] == t[i] {
      if i < 40 {
        assert s[i] == s[..40][i] && t[i] == t[..40][i];
      } else if i >= 48 {
        assert s[i] == s[48..][i - 48] && t[i] == t[48..][i - 48];
      } else {
        assert s[i] == s[40..48][i - 40] && t[i] == t[40..48][i - 40];
      }
    }
    if HeaderCrc(v) == HeaderCrc(w) {
      SameCrc(v, w);
      BurstDetected(s, t, COMMITTED_AT);
      UnpackPack(v, HEADER_WIDTHS);
      UnpackPack(w, HEADER_WIDTHS);
    }
  }

  lemma SameCrc(v: seq<nat>, w: seq<nat>)
    requires |v| == |w| == 11 && v[9] == w[9] == 0 && HeaderCrc(v) == HeaderCrc(w)
    ensures Checksum(Pack(v, HEADER_WIDTHS)) == Checksum(Pack(w, HEADER_WIDTHS))
  {
    hide Width, Pack, Checksum, StoreLittle, FromLittleEndian;
    assert v[9 := 0] == v && w[9 := 0] == w;
    var c, d := Checksum(Pack(v, HEADER_WIDTHS)), Checksum(Pack(w, HEADER_WIDTHS));
    EncodeDecode(StoreLittle(c));
    EncodeDecode(StoreLittle(d));
    LittleOfStore(c);
    LittleOfStore(d);
  }

  // ----- When a header is accepted

  /** Packing with the checksum cleared clears its four bytes and nothing else. */
  lemma ClearedHeader(s: seq<byte>, v: seq<nat>)
    requires |s| == HEADER_BYTES && |v| == 11 && s == Pack(v, HEADER_WIDTHS)
    ensures |Pack(v[9 := 0], HEADER_WIDTHS)| == HEADER_BYTES
    ensures Pack(v[9 := 0], HEADER_WIDTHS)[..56] == s[..56] && Pack(v[9 := 0], HEADER_WIDTHS)[60..] == s[60..]
    ensures Pack(v[9 := 0], HEADER_WIDTHS)[56..60] == LittleEndian(0, 4) && s[56..60] == LittleEndian(v[9], 4)
  {
    hide Width, Pack, LittleEndian;
    AroundField(v, v[9 := 0], 9);
    FieldAt(v, 9);
    FieldAt(v[9 := 0], 9);
  }

  predicate FixedFields(s: seq<byte>)
    requires |s| == HEADER_BYTES
  {
    HeaderWidth();
    var v := Unpack(s, HEADER_WIDTHS);
    v[0] == MAGIC && v[1] == VERSION && v[2] == HEADER_BYTES && v[3] == RECORD_BYTES
  }

  lemma HeaderParts(s: seq<byte>)
    requires |s| == HEADER_BYTES
    ensures Width(HEADER_WIDTHS) == HEADER_BYTES && |Unpack(s, HEADER_WIDTHS)| == 11
    ensures s == Pack(Unpack(s, HEADER_WIDTHS), HEADER_WIDTHS)
    ensures Fits(Unpack(s, HEADER_WIDTHS), HEADER_WIDTHS)
  {
    hide Width, Pack, Unpack;
    HeaderWidth();
    PackUnpack(s, HEADER_WIDTHS);
  }

  lemma StoredCrc(v: seq<nat>, s: seq<byte>)
    requires |s| == HEADER_BYTES && |v| == 11 && s == Pack(v, HEADER_WIDTHS) && v[9] < Pow256(4)
    ensures v[9] == HeaderCrc(v) <==> SelfChecked(s, 56)
  {
    hide Width, Pack, LittleEndian, FromLittleEndian, StoreLittle, Little, Checksum, Pow256;
    ClearedHeader(s, v);
    var cleared := Pack(v[9 := 0], HEADER_WIDTHS);
    ZeroField();
    assert cleared == cleared[..56] + cleared[56..60] + cleared[60..];
    assert cleared == Cleared(s, 56);
    var crc := Checksum(cleared);
    EncodeDecode(StoreLittle(crc));
    DecodeEncode(v[9], 4);
    StoreIs(crc, s[56..60]);
  }

  lemma ZeroField()
    ensures LittleEndian(0, 4) == Zeros(4)
  {
    assert ByteOf(0) == 0;
    assert LittleEndian(0, 1) == [0];
    assert LittleEndian(0, 2) == [0, 0];
    assert LittleEndian(0, 3) == [0, 0, 0];
  }

  /** The status in terms of the bytes: the fixed fields decide first, then the stored checksum. */
  lemma HeaderChecked(s: seq<byte>)
    requires |s| == HEADER_BYTES
    ensures HeaderStatus(s) == if !FixedFields(s) then ErrFormat else if SelfChecked(s, 56) then Ok else ErrCrc
  {
    hide Width, Pack, Unpack, HeaderCrc, SelfChecked, Pow256;
    HeaderParts(s);
    var v := Unpack(s, HEADER_WIDTHS);
    assert v[9] < Pow256(HEADER_WIDTHS[9]);
    StoredCrc(v, s);
  }

  lemma SameFixedFields(s: seq<byte>, t: seq<byte>)
    requires |s| == |t| == HEADER_BYTES && s[..20] == t[..20]
    ensures FixedFields(s) <==> FixedFields(t)
  {
    hide Width, Pack, Unpack, LittleEndian, Pow256;
    HeaderParts(s);
    HeaderParts(t);
    var v, w := Unpack(s, HEADER_WIDTHS), Unpack(t, HEADER_WIDTHS);
    forall i | 0 <= i < 4 ensures v[i] == w[i] {
      FieldAt(v, i);
      FieldAt(w, i);
      assert HEADER_OFFSETS[i + 1] <= 20;
      assert s[HEADER_OFFSETS[i]..HEADER_OFFSETS[i + 1]] == s[..20][HEADER_OFFSETS[i]..HEADER_OFFSETS[i + 1]];
      assert t[HEADER_OFFSETS[i]..HEADER_OFFSETS[i + 1]] == t[..20][HEADER_OFFSETS[i]..HEADER_OFFSETS[i + 1]];
      assert v[i] < Pow256(HEADER_WIDTHS[i]) && w[i] < Pow256(HEADER_WIDTHS[i]);
      LittleEndianInjective(v[i], w[i], HEADER_WIDTHS[i]);
    }
  }

  /** An accepted header is changed in four consecutive bytes, anywhere: it is accepted again exactly
      when nothing changed, or when it is the one change that a window across the checksum cannot show. */
  lemma HeaderDetermined(s: seq<byte>, t: seq<byte>, at: nat)
    requires |s| == |t| == HEADER_BYTES && HeaderStatus(s) == Ok
    requires at + 4 <= HEADER_BYTES && SameOutside(s, t, at)
    ensures HeaderStatus(t) == Ok <==> s == t || XorBytes(s, t)[at..at + 4] == BlindSpot(56, at)
  {
    hide HeaderStatus, FixedFields, SelfChecked, BlindSpot;
    HeaderChecked(s);
    HeaderChecked(t);
    BurstExact(s, t, 56, at);
    SameHaveNoDifference(s, t, at);
    if at >= 20 {
      assert s[..20] == t[..20];
      SameFixedFields(s, t);
    } else {
      NoBlindSpot(56, at);
    }
  }

  /** Away from the edges of the checksum every change of four bytes is refused. */
  lemma HeaderUnchanged(s: seq<byte>, t: seq<byte>, at: nat)
    requires |s| == |t| == HEADER_BYTES && HeaderStatus(s) == Ok
    requires at + 4 <= 56 || at == 56 || at == 60
    requires at + 4 <= HEADER_BYTES && SameOutside(s, t, at)
    ensures HeaderStatus(t) == Ok <==> s == t
  {
    hide HeaderStatus, BlindSpot;
    HeaderDetermined(s, t, at);
    NoBlindSpot(56, at);
    SameHaveNoDifference(s, t, at);
  }

  // ----- Every stopping point of the header write

  /** The file after a write of `next` over `before` that stopped after `at` bytes. */
  function Torn(before: seq<byte>, next: seq<byte>, at: nat): (s: seq<byte>)
    requires |before| == |next| == HEADER_BYTES && at <= HEADER_BYTES
    ensures |s| == HEADER_BYTES
  {
    next[..at] + before[at..]
  }

  lemma SameStart(a: Header, b: Header)
    ensures EncodeHeader(a)[..20] == EncodeHeader(b)[..20]
  {
    hide Width, Pack, LittleEndian, Pow256, HeaderCrc;
    var v, w := HeaderValues(a, HeaderCrc(HeaderValues(a, 0))), HeaderValues(b, HeaderCrc(HeaderValues(b, 0)));
    var s, t := EncodeHeader(a), EncodeHeader(b);
    FixedField(v, w, 0);
    FixedField(v, w, 1);
    FixedField(v, w, 2);
    FixedField(v, w, 3);
    assert s[..20] == s[0..8] + s[8..12] + s[12..16] + s[16..20];
    assert t[..20] == t[0..8] + t[8..12] + t[12..16] + t[16..20];
  }

  lemma FixedField(v: seq<nat>, w: seq<nat>, i: nat)
    requires |v| == |w| == 11 && i < 11 && v[i] == w[i]
    ensures |Pack(v, HEADER_WIDTHS)| == |Pack(w, HEADER_WIDTHS)| == HEADER_BYTES
    ensures HEADER_OFFSETS[i] <= HEADER_OFFSETS[i + 1] <= HEADER_BYTES
    ensures Pack(v, HEADER_WIDTHS)[HEADER_OFFSETS[i]..HEADER_OFFSETS[i + 1]] == Pack(w, HEADER_WIDTHS)[HEADER_OFFSETS[i]..HEADER_OFFSETS[i + 1]]
  {
    hide Pack, LittleEndian;
    FieldAt(v, i);
    FieldAt(w, i);
  }

  lemma AcceptedEncoding(h: Header)
    ensures HeaderStatus(EncodeHeader(h)) == Ok
    ensures FixedFields(EncodeHeader(h)) && SelfChecked(EncodeHeader(h), 56)
  {
    hide EncodeHeader, HeaderStatus, FixedFields, SelfChecked;
    HeaderRoundTrip(h);
    HeaderChecked(EncodeHeader(h));
  }

  /** Stop any header write after any number of bytes. Up to the checksum the file is accepted exactly
      when the old checksum happens to fit what is there; from its first byte on, exactly when the
      header is complete. It is never refused for its format. */
  lemma TornHeaderStatus(a: Header, b: Header, at: nat)
    requires at <= HEADER_BYTES && a.reserved == b.reserved
    ensures
      var before, torn := EncodeHeader(a), Torn(EncodeHeader(a), EncodeHeader(b), at);
      HeaderStatus(torn) ==
        if at <= 56 then (if Checksum(Cleared(torn, 56)) == Checksum(Cleared(before, 56)) then Ok else ErrCrc)
        else if torn == EncodeHeader(b) then Ok else ErrCrc
  {
    hide EncodeHeader, HeaderStatus, FixedFields, Checksum, Cleared, Little, BlindSpot;
    var before, next := EncodeHeader(a), EncodeHeader(b);
    var torn := Torn(before, next, at);
    AcceptedEncoding(a);
    AcceptedEncoding(b);
    SameStart(a, b);
    TornStart(before, next, at);
    SameFixedFields(before, torn);
    HeaderChecked(torn);
    if at <= 56 {
      assert torn[56..60] == before[56..60];
    } else {
      SameEnd(a, b);
      TornEnd(before, next, at);
      HeaderUnchanged(next, torn, 56);
    }
  }

  lemma SameEnd(a: Header, b: Header)
    requires a.reserved == b.reserved
    ensures EncodeHeader(a)[60..] == EncodeHeader(b)[60..]
  {
    hide Width, Pack, LittleEndian, Pow256, HeaderCrc;
    FieldAt(HeaderValues(a, HeaderCrc(HeaderValues(a, 0))), 10);
    FieldAt(HeaderValues(b, HeaderCrc(HeaderValues(b, 0))), 10);
    assert EncodeHeader(a)[60..64] == EncodeHeader(a)[60..] && EncodeHeader(b)[60..64] == EncodeHeader(b)[60..];
  }

  lemma TornEnd(before: seq<byte>, next: seq<byte>, at: nat)
    requires |before| == |next| == HEADER_BYTES && 56 < at <= HEADER_BYTES && before[60..] == next[60..]
    ensures SameOutside(next, Torn(before, next, at), 56)
  {
    var torn := Torn(before, next, at);
    forall i | 0 <= i < HEADER_BYTES && !(56 <= i < 60) ensures next[i] == torn[i] {
      if i >= 60 {
        assert before[i] == before[60..][i - 60] == next[60..][i - 60] == next[i];
      }
    }
  }

  lemma TornStart(before: seq<byte>, next: seq<byte>, at: nat)
    requires |before| == |next| == HEADER_BYTES && at <= HEADER_BYTES && before[..20] == next[..20]
    ensures Torn(before, next, at)[..20] == before[..20]
  {
    if at < 20 {
      assert next[..at] == next[..20][..at] == before[..at];
      assert Torn(before, next, at)[..20] == before[..at] + before[at..20];
    } else {
      assert Torn(before, next, at)[..20] == next[..20];
    }
  }

  // ----- Headers that differ in the epoch and in the record count

  /** What the store changes between two header writes. */
  predicate Successive(a: Header, b: Header) {
    && b == a.(epoch := b.epoch, committed := b.committed)
    && a.epoch < U32 && b.epoch < U32 && a.committed < U32 && b.committed < U32
  }

  lemma OneField(v: seq<nat>, w: seq<nat>, i: nat)
    requires |v| == |w| == 11 && i < 11 && w == v[i := w[i]]
    ensures |Pack(v, HEADER_WIDTHS)| == |Pack(w, HEADER_WIDTHS)| == HEADER_BYTES
    ensures forall j :: 0 <= j < HEADER_BYTES && !(HEADER_OFFSETS[i] <= j < HEADER_OFFSETS[i + 1]) ==>
              Pack(v, HEADER_WIDTHS)[j] == Pack(w, HEADER_WIDTHS)[j]
  {
    hide Width, Pack;
    AroundField(v, w, i);
    var s, t, lo, hi := Pack(v, HEADER_WIDTHS), Pack(w, HEADER_WIDTHS), HEADER_OFFSETS[i], HEADER_OFFSETS[i + 1];
    forall j | 0 <= j < HEADER_BYTES && !(lo <= j < hi) ensures s[j] == t[j] {
      if j < lo {
        assert s[j] == s[..lo][j] && t[j] == t[..lo][j];
      } else {
        assert s[j] == s[hi..][j - hi] && t[j] == t[hi..][j - hi];
      }
    }
  }

  /** A value below 2^32 in a field of eight bytes uses the first four. */
  lemma HighHalfZero(v: seq<nat>, i: nat)
    requires |v| == 11 && 5 <= i < 9 && v[i] < U32
    ensures |Pack(v, HEADER_WIDTHS)| == HEADER_BYTES && HEADER_OFFSETS[i + 1] == HEADER_OFFSETS[i] + 8 <= HEADER_BYTES
    ensures forall j :: HEADER_OFFSETS[i] + 4 <= j < HEADER_OFFSETS[i + 1] ==> Pack(v, HEADER_WIDTHS)[j] == 0
  {
    hide Width, Pack, LittleEndian, Pow256;
    Pow256Values();
    FieldAt(v, i);
    HighBytesZero(v[i], 4, 8);
    var s, lo := Pack(v, HEADER_WIDTHS), HEADER_OFFSETS[i];
    forall j | lo + 4 <= j < lo + 8 ensures s[j] == 0 {
      assert s[j] == s[lo..lo + 8][j - lo];
    }
  }

  predicate ChangedPart(i: nat) {
    32 <= i < 36 || 40 <= i < 44 || 56 <= i < 60
  }

  predicate AgreeElsewhere(s: seq<byte>, t: seq<byte>)
    requires |s| == |t| == HEADER_BYTES
  {
    forall i :: 0 <= i < HEADER_BYTES && !ChangedPart(i) ==> s[i] == t[i]
  }

  lemma SuccessiveAgree(a: Header, b: Header)
    requires Successive(a, b)
    ensures AgreeElsewhere(EncodeHeader(a), EncodeHeader(b))
  {
    hide Width, Pack, LittleEndian, Pow256, HeaderCrc;
    var v, w := HeaderValues(a, HeaderCrc(HeaderValues(a, 0))), HeaderValues(b, HeaderCrc(HeaderValues(b, 0)));
    var m := v[9 := w[9]];
    var k := m[7 := w[7]];
    assert w == k[6 := w[6]];
    OneField(v, m, 9);
    OneField(m, k, 7);
    OneField(k, w, 6);
    HighHalfZero(v, 6);
    HighHalfZero(w, 6);
    HighHalfZero(v, 7);
    HighHalfZero(w, 7);
  }

  lemma XorZero(x: bv32, y: bv32)
    ensures Xor(x, y) == 0 <==> x == y
  {
  }

  /** Two changed words cancel when the first, eight bytes on, is the second. */
  lemma TwoWords(d: seq<byte>)
    requires |d| == HEADER_BYTES
    requires forall i :: 0 <= i < HEADER_BYTES && !(32 <= i < 36) && !(40 <= i < 44) ==> d[i] == 0
    ensures Feed(0, d) == 0 <==> Steps(Little(d[32..36]), 8) == Little(d[40..44])
  {
    hide Feed, Steps, Little, Xor;
    var e, m := d[32..36], d[40..44];
    var front := Zeros(32) + e + Zeros(4);
    var c := Steps(Little(e), 8);
    assert d == front + (m + Zeros(20));
    FeedConcat(0, front, m + Zeros(20));
    FeedBetween(32, e, 4);
    FeedConcat(c, m, Zeros(20));
    FeedLittle(c, m);
    var x := Xor(c, Little(m));
    FeedZeros(Steps(x, 4), 20);
    StepsSum(x, 4, 20);
    StepsOfZero(24);
    if Steps(x, 24) == 0 {
      StepsInjective(x, 0, 24);
    }
    XorZero(c, Little(m));
  }

  /** The change of the epoch and the change of the record count leave the checksum as it was. */
  predicate EpochHides(s: seq<byte>, t: seq<byte>)
    requires |s| == |t| == HEADER_BYTES
  {
    Steps(Little(XorBytes(s[32..36], t[32..36])), 8) == Little(XorBytes(s[40..44], t[40..44]))
  }

  lemma HidesExactly(s: seq<byte>, t: seq<byte>)
    requires |s| == |t| == HEADER_BYTES && AgreeElsewhere(s, t)
    ensures Checksum(Cleared(t, 56)) == Checksum(Cleared(s, 56)) <==> EpochHides(s, t)
  {
    hide Feed, Steps, Little, Checksum, Xor;
    var d := XorBytes(Cleared(s, 56), Cleared(t, 56));
    forall i | 0 <= i < HEADER_BYTES && !(32 <= i < 36) && !(40 <= i < 44) ensures d[i] == 0 {
      XorIsZero(Cleared(s, 56)[i], Cleared(t, 56)[i]);
    }
    assert d[32..36] == XorBytes(s[32..36], t[32..36]) && d[40..44] == XorBytes(s[40..44], t[40..44]);
    TwoWords(d);
    ChecksumsXor(Cleared(s, 56), Cleared(t, 56));
    XorZero(Checksum(Cleared(s, 56)), Checksum(Cleared(t, 56)));
  }

  lemma TornKeeps(before: seq<byte>, next: seq<byte>, at: nat)
    requires |before| == |next| == HEADER_BYTES && at <= HEADER_BYTES && AgreeElsewhere(before, next)
    ensures AgreeElsewhere(before, Torn(before, next, at))
    ensures at <= 40 ==> SameOutside(before, Torn(before, next, at), 32)
    ensures 44 <= at <= 56 ==> Cleared(Torn(before, next, at), 56) == Cleared(next, 56)
  {
    var torn := Torn(before, next, at);
    if 44 <= at <= 56 {
      forall i | 0 <= i < HEADER_BYTES ensures Cleared(torn, 56)[i] == Cleared(next, 56)[i] {
      }
    }
  }

  /** With every changed byte before the checksum written, the old checksum fits only when it is the
      new one as well. */
  lemma CoveredComplete(before: seq<byte>, next: seq<byte>, at: nat)
    requires |before| == |next| == HEADER_BYTES && at <= 56 && AgreeElsewhere(before, next)
    requires SelfChecked(before, 56) && SelfChecked(next, 56)
    requires Cleared(Torn(before, next, at), 56) == Cleared(next, 56)
    requires Checksum(Cleared(Torn(before, next, at), 56)) == Checksum(Cleared(before, 56))
    ensures Torn(before, next, at) == next
  {
    hide Checksum, Little;
    LittleInjective(before[56..60], next[56..60]);
    var torn := Torn(before, next, at);
    forall i | 0 <= i < HEADER_BYTES ensures torn[i] == next[i] {
      if 56 <= i < 60 {
        assert before[i] == before[56..60][i - 56] && next[i] == next[56..60][i - 56];
      } else {
        assert torn[i] == Cleared(torn, 56)[i] && next[i] == Cleared(next, 56)[i];
      }
    }
  }

  /** Stop a header write after any number of bytes: what is in the file is accepted exactly when it is
      the whole old header or the whole new one, or when the write stopped inside the record count and
      the change of the epoch hides what is missing of it. */
  lemma TornHeaderExact(a: Header, b: Header, at: nat)
    requires Successive(a, b) && at <= HEADER_BYTES
    ensures
      var before, next := EncodeHeader(a), EncodeHeader(b);
      var torn := Torn(before, next, at);
      HeaderStatus(torn) == Ok <==> torn == before || torn == next || (40 < at < 44 && EpochHides(before, torn))
  {
    hide EncodeHeader, HeaderStatus, Checksum, Cleared, EpochHides, SelfChecked, FixedFields, SameOutside, Torn, AgreeElsewhere;
    var before, next := EncodeHeader(a), EncodeHeader(b);
    var torn := Torn(before, next, at);
    AcceptedEncoding(a);
    AcceptedEncoding(b);
    SuccessiveAgree(a, b);
    TornKeeps(before, next, at);
    TornHeaderStatus(a, b, at);
    if at <= 40 {
      HeaderUnchanged(before, torn, 32);
    } else if at < 44 {
      HidesExactly(before, torn);
    } else if at <= 56 && HeaderStatus(torn) == Ok {
      CoveredComplete(before, next, at);
    }
  }

  /** A field that keeps its value keeps its bytes, and only such a field. */
  lemma FieldBytes(a: Header, b: Header)
    requires Successive(a, b)
    ensures a.epoch == b.epoch <==> EncodeHeader(a)[32..36] == EncodeHeader(b)[32..36]
    ensures a.committed == b.committed <==> EncodeHeader(a)[40..44] == EncodeHeader(b)[40..44]
  {
    hide Width, Pack, LittleEndian, Pow256, HeaderCrc;
    var v, w := HeaderValues(a, HeaderCrc(HeaderValues(a, 0))), HeaderValues(b, HeaderCrc(HeaderValues(b, 0)));
    HalfField(v, w, 6);
    HalfField(v, w, 7);
  }

  lemma FirstFour(s: seq<byte>, lo: nat)
    requires lo + 8 <= |s|
    ensures s[lo..lo + 4] == s[lo..lo + 8][..4]
  {
  }

  lemma HalfField(v: seq<nat>, w: seq<nat>, i: nat)
    requires |v| == |w| == 11 && 5 <= i < 9 && v[i] < U32 && w[i] < U32
    ensures |Pack(v, HEADER_WIDTHS)| == |Pack(w, HEADER_WIDTHS)| == HEADER_BYTES
    ensures HEADER_OFFSETS[i] + 4 <= HEADER_BYTES
    ensures v[i] == w[i] <==>
              Pack(v, HEADER_WIDTHS)[HEADER_OFFSETS[i]..HEADER_OFFSETS[i] + 4] == Pack(w, HEADER_WIDTHS)[HEADER_OFFSETS[i]..HEADER_OFFSETS[i] + 4]
  {
    hide Width, Pack, LittleEndian, Pow256;
    Pow256Values();
    FieldAt(v, i);
    FieldAt(w, i);
    HighBytesZero(v[i], 4, 8);
    HighBytesZero(w[i], 4, 8);
    var x, y, lo := LittleEndian(v[i], 8), LittleEndian(w[i], 8), HEADER_OFFSETS[i];
    var s, t := Pack(v, HEADER_WIDTHS), Pack(w, HEADER_WIDTHS);
    FirstFour(s, lo);
    FirstFour(t, lo);
    assert s[lo..lo + 4] == x[..4] && t[lo..lo + 4] == y[..4];
    if x[..4] == y[..4] {
      assert x == x[..4] + x[4..] && y == y[..4] + y[4..] && x[4..] == y[4..];
      LittleEndianInjective(v[i], w[i], 8);
    }
  }

  /** A crash between the changed field and the checksum, when just one of the two fields changes,
      leaves a file that is refused when it is opened again. */
  lemma TornHeaderRefused(a: Header, b: Header, at: nat)
    requires Successive(a, b) && 44 <= at <= 56
    requires (a.epoch == b.epoch) != (a.committed == b.committed)
    ensures HeaderStatus(Torn(EncodeHeader(a), EncodeHeader(b), at)) == ErrCrc
  {
    hide EncodeHeader, HeaderStatus, Checksum, Cleared, SameOutside, Torn, AgreeElsewhere;
    var before, next := EncodeHeader(a), EncodeHeader(b);
    var torn := Torn(before, next, at);
    HeaderRoundTrip(a);
    SuccessiveAgree(a, b);
    TornHeaderStatus(a, b, at);
    FieldBytes(a, b);
    var k := if a.epoch == b.epoch then 40 else 32;
    OtherFieldSame(before, next, at, k);
    HeaderUnchanged(before, torn, k);
    WrittenPart(before, next, at, k);
  }

  lemma WrittenPart(before: seq<byte>, next: seq<byte>, at: nat, k: nat)
    requires |before| == |next| == HEADER_BYTES && k + 4 <= at <= HEADER_BYTES
    ensures Torn(before, next, at)[k..k + 4] == next[k..k + 4]
  {
  }

  lemma OtherFieldSame(before: seq<byte>, next: seq<byte>, at: nat, k: nat)
    requires |before| == |next| == HEADER_BYTES && 44 <= at <= 56 && AgreeElsewhere(before, next)
    requires k == 40 ==> before[32..36] == next[32..36]
    requires k == 32 ==> before[40..44] == next[40..44]
    requires k == 40 || k == 32
    ensures SameOutside(before, Torn(before, next, at), k)
  {
    var torn := Torn(before, next, at);
    forall i | 0 <= i < HEADER_BYTES && !(k <= i < k + 4) ensures before[i] == torn[i] {
      if 32 <= i < 36 {
        assert before[i] == before[32..36][i - 32] && next[i] == next[32..36][i - 32];
      } else if 40 <= i < 44 {
        assert before[i] == before[40..44][i - 40] && next[i] == next[40..44][i - 40];
      }
    }
  }
}
