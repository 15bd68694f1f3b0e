/** The sealed 4096-byte page: a 64-byte control block and three 1344-byte regions. */
module Neon4096 {
  import opened Bytes
  import opened Crc32c
  import opened Fold128

  const MAGIC: int := 0x314B344E41464152
  const VERSION: int := 1
  const PAGE_BYTES: nat := 4096
  const CONTROL_BYTES: nat := 64
  const REGION_BYTES: nat := 1344
  const PAYLOAD_BYTES: nat := 4032
  const ROUTE_STORAGE: int := 3
  const FLAG_NEON_COMPILED: int := 2

  /** Where the page checksum is stored. */
  const CRC_PAGE_AT: nat := 44

  datatype Status = Ok | ErrArg | ErrContract | ErrCrc

  datatype Control = Control(
    magic: u64, version: u32, flags: u32, sequence: u64, payloadBytes: u32, ownerRoute: u32,
    crcHot: bv32, crcBuffer: bv32, crcStorage: bv32, crcPage: bv32, fold: seq<byte>)

  datatype PageValue = PageValue(control: Control, hot: seq<byte>, buffer: seq<byte>, storage: seq<byte>)
  {
    predicate Shape() {
      |control.fold| == LANES && |hot| == |buffer| == |storage| == REGION_BYTES
    }
  }

  // ----- Layout

  const CONTROL_WIDTHS: seq<nat> := [8, 4, 4, 8, 4, 4, 4, 4, 4, 4]

  function ControlValues(c: Control): (values: seq<nat>)
    ensures |values| == 10
  {
    [c.magic, c.version, c.flags, c.sequence, c.payloadBytes, c.ownerRoute,
     c.crcHot as int, c.crcBuffer as int, c.crcStorage as int, c.crcPage as int]
  }

  lemma ControlFits(c: Control)
    ensures Fits(ControlValues(c), CONTROL_WIDTHS)
  {
    Pow256Values();
    Word32(c.crcHot);
    Word32(c.crcBuffer);
    Word32(c.crcStorage);
    Word32(c.crcPage);
  }

  const OFFSETS: seq<nat> := [0, 8, 12, 16, 24, 28, 32, 36, 40, 44, 48]

  lemma ControlOffsets()
    ensures Width(CONTROL_WIDTHS) == 48
    ensures forall i :: 0 <= i <= 10 ==> Width(CONTROL_WIDTHS[..i]) == OFFSETS[i]
  {
    hide Width;
    TotalWidth(CONTROL_WIDTHS, OFFSETS);
    forall i | 0 <= i <= 10 ensures Width(CONTROL_WIDTHS[..i]) == OFFSETS[i] {
      WidthAt(CONTROL_WIDTHS, OFFSETS, i);
    }
  }

  function ControlBytes(c: Control): (s: seq<byte>)
    requires |c.fold| == LANES
    ensures |s| == CONTROL_BYTES
  {
    ControlOffsets();
    Pack(ControlValues(c), CONTROL_WIDTHS) + c.fold
  }

  /** The page as it lies in memory. */
  function Flat(p: PageValue): (s: seq<byte>)
    requires p.Shape()
    ensures |s| == PAGE_BYTES
  {
    ControlBytes(p.control) + p.hot + p.buffer + p.storage
  }

  function CrcCleared(p: PageValue): PageValue {
    p.(control := p.control.(crcPage := 0))
  }

  // ----- What sealing writes and what verification checks

  function PageCrc(p: PageValue): bv32
    requires p.Shape()
  {
    Checksum(Flat(CrcCleared(p)))
  }

  function PayloadFold(p: PageValue): (f: seq<byte>)
    requires p.Shape()
    ensures |f| == LANES
  {
    Fold(p.hot + p.buffer + p.storage)
  }

  predicate ContractHolds(c: Control) {
    c.magic == MAGIC && c.version == VERSION && c.payloadBytes <= PAYLOAD_BYTES && c.ownerRoute <= ROUTE_STORAGE
  }

  predicate ChecksumsHold(p: PageValue)
    requires p.Shape()
  {
    && p.control.crcHot == Checksum(p.hot)
    && p.control.crcBuffer == Checksum(p.buffer)
    && p.control.crcStorage == Checksum(p.storage)
    && p.control.crcPage == PageCrc(p)
    && p.control.fold == PayloadFold(p)
  }

  function VerifyStatus(p: PageValue): Status
    requires p.Shape()
  {
    if !ContractHolds(p.control) then ErrContract
    else if !ChecksumsHold(p) then ErrCrc
    else Ok
  }

  /** Every control field is overwritten; the page checksum covers the others. */
  function Sealed(p: PageValue, sequence: u64, payloadBytes: u32, ownerRoute: u32, neonCompiled: bool): (q: PageValue)
    requires p.Shape()
    ensures q.Shape()
  {
    var fields := Control(MAGIC, VERSION, if neonCompiled then FLAG_NEON_COMPILED else 0,
                          sequence, payloadBytes, ownerRoute,
                          Checksum(p.hot), Checksum(p.buffer), Checksum(p.storage), 0, PayloadFold(p));
    var unsigned := p.(control := fields);
    p.(control := fields.(crcPage := PageCrc(unsigned)))
  }

  // ----- The page in memory

  class Page {
    var control: Control
    const hot: array<byte>
    const buffer: array<byte>
    const storage: array<byte>

    constructor ()
      ensures Valid() && fresh(hot) && fresh(buffer) && fresh(storage)
    {
      control := Control(0, 0, 0, 0, 0, 0, 0, 0, 0, 0, seq(LANES, _ => 0));
      hot := new byte[REGION_BYTES];
      buffer := new byte[REGION_BYTES];
      storage := new byte[REGION_BYTES];
    }

    ghost predicate Valid()
      reads this
    {
      && hot.Length == buffer.Length == storage.Length == REGION_BYTES
      && hot != buffer && hot != storage && buffer != storage
      && |control.fold| == LANES
    }

    ghost function Value(): (p: PageValue)
      requires Valid()
      reads this, hot, buffer, storage
      ensures p.Shape()
    {
      PageValue(control, hot[..], buffer[..], storage[..])
    }

    method ComputePageCrc() returns (crc: bv32)
      requires Valid()
      ensures crc == PageCrc(Value())
    {
      hide FeedByte;
      var cleared := control.(crcPage := 0);
      var head := ControlBytes(cleared);
      crc := Update(0xffffffff, head);
      FeedConcat(0xffffffff, head, hot[..]);
      crc := Update(crc, hot[..]);
      FeedConcat(0xffffffff, head + hot[..], buffer[..]);
      crc := Update(crc, buffer[..]);
      FeedConcat(0xffffffff, head + hot[..] + buffer[..], storage[..]);
      crc := Update(crc, storage[..]);
      assert Flat(CrcCleared(Value())) == head + hot[..] + buffer[..] + storage[..];
      crc := Complement(crc);
    }

    method ComputeRegionCrc(region: array<byte>) returns (crc: bv32)
      ensures crc == Checksum(region[..])
    {
      hide FeedByte;
      crc := Update(0xffffffff, region[..]);
      crc := Complement(crc);
    }

    /** The three regions are folded separately and combined. */
    method ComputePayloadFold(useVector: bool) returns (out: seq<byte>)
      requires Valid()
      ensures out == PayloadFold(Value())
    {
      hide Xor, Fold;
      var h := FoldOf(hot[..], useVector);
      var b := FoldOf(buffer[..], useVector);
      var s := FoldOf(storage[..], useVector);
      FoldConcat(hot[..], buffer[..]);
      FoldConcat(hot[..] + buffer[..], storage[..]);
      out := XorLanes(XorLanes(h, b), s);
    }

    method FoldOf(data: seq<byte>, useVector: bool) returns (out: seq<byte>)
      ensures out == Fold(data)
    {
      hide Xor, Fold;
      var lanes := new byte[LANES];
      if useVector {
        FoldVector(data, lanes);
      } else {
        FoldScalar(data, lanes);
      }
      out := lanes[..];
    }

    method Seal(sequence: u64, payloadBytes: u32, ownerRoute: u32, neonCompiled: bool) returns (status: Status)
      requires Valid()
      modifies this`control
      ensures Valid()
      ensures status == if payloadBytes > PAYLOAD_BYTES || ownerRoute > ROUTE_STORAGE then ErrArg else Ok
      ensures Value() == if status == Ok then Sealed(old(Value()), sequence, payloadBytes, ownerRoute, neonCompiled)
                                         else old(Value())
    {
      hide FeedByte, Xor, Fold, Checksum, PageCrc, PayloadFold;
      if payloadBytes > PAYLOAD_BYTES || ownerRoute > ROUTE_STORAGE {
        return ErrArg;
      }
      var crcHot := ComputeRegionCrc(hot);
      var crcBuffer := ComputeRegionCrc(buffer);
      var crcStorage := ComputeRegionCrc(storage);
      var fold := ComputePayloadFold(neonCompiled);
      control := Control(MAGIC, VERSION, if neonCompiled then FLAG_NEON_COMPILED else 0,
                         sequence, payloadBytes, ownerRoute, crcHot, crcBuffer, crcStorage, 0, fold);
      var crcPage := ComputePageCrc();
      control := control.(crcPage := crcPage);
      status := Ok;
    }

    method Verify(useVector: bool) returns (status: Status)
      requires Valid()
      ensures status == VerifyStatus(Value())
    {
      hide FeedByte, Xor, Fold, Checksum, PageCrc, PayloadFold;
      if control.magic != MAGIC || control.version != VERSION ||
         control.payloadBytes > PAYLOAD_BYTES || control.ownerRoute > ROUTE_STORAGE {
        return ErrContract;
      }
      var crcHot := ComputeRegionCrc(hot);
      var crcBuffer := ComputeRegionCrc(buffer);
      var crcStorage := ComputeRegionCrc(storage);
      var crcPage := ComputePageCrc();
      if control.crcHot != crcHot || control.crcBuffer != crcBuffer ||
         control.crcStorage != crcStorage || control.crcPage != crcPage {
        return ErrCrc;
      }
      var fold := ComputePayloadFold(useVector);
      status := if fold != control.fold then ErrCrc else Ok;
    }
  }

  // ----- Reading fields back from the bytes of a page

  /** Field `i` of the control block lies between two offsets of the page. */
  lemma FieldBytes(p: PageValue, i: nat)
    requires p.Shape() && i < 10
    ensures OFFSETS[i] + CONTROL_WIDTHS[i] == OFFSETS[i + 1] <= 48
    ensures Flat(p)[OFFSETS[i]..OFFSETS[i + 1]] == LittleEndian(ControlValues(p.control)[i], CONTROL_WIDTHS[i])
  {
    hide Width, LittleEndian, Pack;
    ControlOffsets();
    var values := ControlValues(p.control);
    PackSlice(values, CONTROL_WIDTHS, i);
    FlatControl(p);
    assert Flat(p)[OFFSETS[i]..OFFSETS[i + 1]] == Flat(p)[..48][OFFSETS[i]..OFFSETS[i + 1]];
  }

  lemma FlatControl(p: PageValue)
    requires p.Shape()
    ensures Flat(p)[..48] == Pack(ControlValues(p.control), CONTROL_WIDTHS)
  {
    hide Width, Pack, ControlValues;
    ControlOffsets();
  }

  /** Two pages with the same bytes in a field have the same value there. */
  lemma FieldDetermined(p: PageValue, q: PageValue, i: nat)
    requires p.Shape() && q.Shape() && i < 10
    requires OFFSETS[i] <= OFFSETS[i + 1] <= 48
    requires Flat(p)[OFFSETS[i]..OFFSETS[i + 1]] == Flat(q)[OFFSETS[i]..OFFSETS[i + 1]]
    ensures ControlValues(p.control)[i] == ControlValues(q.control)[i]
  {
    hide Width, Pack, Flat, LittleEndian;
    FieldBytes(p, i);
    FieldBytes(q, i);
    ControlFits(p.control);
    ControlFits(q.control);
    LittleEndianInjective(ControlValues(p.control)[i], ControlValues(q.control)[i], CONTROL_WIDTHS[i]);
  }

  lemma FieldsDetermined(p: PageValue, q: PageValue, n: nat)
    requires p.Shape() && q.Shape() && n <= 10
    requires 0 <= OFFSETS[n] <= 48 && Flat(p)[..OFFSETS[n]] == Flat(q)[..OFFSETS[n]]
    ensures forall i :: 0 <= i < n ==> ControlValues(p.control)[i] == ControlValues(q.control)[i]
  {
    hide Width, Pack, Flat, ControlValues;
    forall i | 0 <= i < n ensures ControlValues(p.control)[i] == ControlValues(q.control)[i] {
      FieldBytes(p, i);
      var b, e := OFFSETS[i], OFFSETS[i + 1];
      assert e <= OFFSETS[n];
      SliceOfPrefix(Flat(p), b, e, OFFSETS[n]);
      SliceOfPrefix(Flat(q), b, e, OFFSETS[n]);
      FieldDetermined(p, q, i);
    }
  }

  lemma Regions(p: PageValue)
    requires p.Shape()
    ensures Flat(p)[48..64] == p.control.fold
    ensures Flat(p)[64..1408] == p.hot
    ensures Flat(p)[1408..2752] == p.buffer
    ensures Flat(p)[2752..4096] == p.storage
  {
    hide ControlBytes;
    Parts(ControlBytes(p.control), p.hot, p.buffer, p.storage);
    ControlEnd(p.control);
    assert Flat(p)[48..64] == Flat(p)[..64][48..64];
  }

  lemma Parts(a: seq<byte>, b: seq<byte>, c: seq<byte>, d: seq<byte>)
    ensures var s := a + b + c + d;
            s[..|a|] == a && s[|a|..|a| + |b|] == b
            && s[|a| + |b|..|a| + |b| + |c|] == c && s[|a| + |b| + |c|..|a| + |b| + |c| + |d|] == d
  {
  }

  lemma ControlEnd(c: Control)
    requires |c.fold| == LANES
    ensures ControlBytes(c)[48..64] == c.fold
  {
    hide Width, Pack, ControlValues;
    ControlOffsets();
  }

  lemma ControlDetermined(c: Control, d: Control)
    requires ControlValues(c) == ControlValues(d) && c.fold == d.fold
    ensures c == d
  {
    Word32(c.crcHot);
    Word32(c.crcBuffer);
    Word32(c.crcStorage);
    Word32(c.crcPage);
    var v, w := ControlValues(c), ControlValues(d);
    assert v[0] == w[0] && v[1] == w[1] && v[2] == w[2] && v[3] == w[3] && v[4] == w[4] && v[5] == w[5];
    assert v[6] == w[6] && v[7] == w[7] && v[8] == w[8] && v[9] == w[9];
  }

  lemma FlatInjective(p: PageValue, q: PageValue)
    requires p.Shape() && q.Shape() && Flat(p) == Flat(q)
    ensures p == q
  {
    hide Width, Pack, Flat;
    Regions(p);
    Regions(q);
    FieldsDetermined(p, q, 10);
    ControlDetermined(p.control, q.control);
  }

  // ----- Round trip and burst detection

  lemma SealedPageVerifies(p: PageValue, sequence: u64, payloadBytes: u32, ownerRoute: u32, neonCompiled: bool)
    requires p.Shape()
    requires payloadBytes <= PAYLOAD_BYTES && ownerRoute <= ROUTE_STORAGE
    ensures VerifyStatus(Sealed(p, sequence, payloadBytes, ownerRoute, neonCompiled)) == Ok
  {
    hide FeedByte, Xor, Fold, Checksum, Flat;
    var q := Sealed(p, sequence, payloadBytes, ownerRoute, neonCompiled);
    assert CrcCleared(q) == CrcCleared(CrcCleared(q));
  }

  /** Clearing the page checksum clears its four bytes and nothing else. */
  lemma ClearedBytes(p: PageValue)
    requires p.Shape()
    ensures Flat(CrcCleared(p)) == Flat(p)[..44] + LittleEndian(0, 4) + Flat(p)[48..]
  {
    hide Width, Pack, LittleEndian;
    var q := CrcCleared(p);
    var v, w := ControlValues(p.control), ControlValues(q.control);
    ControlOffsets();
    PackPrefix(v, w, CONTROL_WIDTHS, 9);
    FlatControl(p);
    FlatControl(q);
    assert Flat(p)[..44] == Flat(p)[..48][..44] && Flat(q)[..44] == Flat(q)[..48][..44];
    FieldBytes(q, 9);
    assert Flat(q)[48..] == Flat(p)[48..];
    assert Flat(q) == Flat(q)[..44] + Flat(q)[44..48] + Flat(q)[48..];
  }

  /** The burst misses the page checksum, so the checksum itself gives it away. */
  lemma BurstOutsideCrc(p: PageValue, q: PageValue, at: nat)
    requires p.Shape() && q.Shape() && at + 4 <= PAGE_BYTES
    requires SameOutside(Flat(p), Flat(q), at)
    requires at + 4 <= CRC_PAGE_AT || CRC_PAGE_AT + 4 <= at
    requires p.control.crcPage == PageCrc(p) && q.control.crcPage == PageCrc(q)
    ensures p == q
  {
    hide Checksum, Flat, Pack, Width, LittleEndian;
    ClearedBytes(p);
    ClearedBytes(q);
    assert Flat(p)[44..48] == Flat(q)[44..48];
    CrcFieldDetermined(p, q);
    BurstDetected(Flat(CrcCleared(p)), Flat(CrcCleared(q)), at);
    FlatInjective(CrcCleared(p), CrcCleared(q));
  }

  lemma CrcFieldDetermined(p: PageValue, q: PageValue)
    requires p.Shape() && q.Shape()
    requires Flat(p)[44..48] == Flat(q)[44..48]
    ensures p.control.crcPage == q.control.crcPage
  {
    hide Flat, Pack, Width;
    FieldDetermined(p, q, 9);
    Word32(p.control.crcPage);
    Word32(q.control.crcPage);
    assert ControlValues(p.control)[9] == p.control.crcPage as int;
    assert ControlValues(q.control)[9] == q.control.crcPage as int;
  }

  /** The burst touches the page checksum, so it can only reach the storage checksum and the fold
      besides, and both are recomputed from regions it cannot reach. */
  lemma BurstAcrossCrc(p: PageValue, q: PageValue, at: nat)
    requires p.Shape() && q.Shape()
    requires SameOutside(Flat(p), Flat(q), at)
    requires CRC_PAGE_AT - 4 < at < CRC_PAGE_AT + 4
    requires ChecksumsHold(p) && ChecksumsHold(q)
    ensures p == q
  {
    hide Checksum, Flat, PageCrc, Fold, Pack, Width, ControlValues;
    Regions(p);
    Regions(q);
    assert Flat(p)[64..1408] == Flat(q)[64..1408];
    assert Flat(p)[1408..2752] == Flat(q)[1408..2752];
    assert Flat(p)[2752..4096] == Flat(q)[2752..4096];
    assert Flat(p)[..40] == Flat(q)[..40];
    FieldsDetermined(p, q, 8);
    SameOpenFields(p.control, q.control);
    assert CrcCleared(p) == CrcCleared(q);
    CrcOfCleared(p);
    CrcOfCleared(q);
  }

  lemma SameOpenFields(c: Control, d: Control)
    requires forall i :: 0 <= i < 8 ==> ControlValues(c)[i] == ControlValues(d)[i]
    requires c.crcStorage == d.crcStorage && c.fold == d.fold
    ensures c.(crcPage := 0) == d.(crcPage := 0)
  {
    Word32(c.crcHot);
    Word32(c.crcBuffer);
    Word32(d.crcHot);
    Word32(d.crcBuffer);
    var v, w := ControlValues(c), ControlValues(d);
    assert v[0] == w[0] && v[1] == w[1] && v[2] == w[2] && v[3] == w[3] && v[4] == w[4] && v[5] == w[5];
    assert v[6] == w[6] && v[7] == w[7];
  }

  lemma CrcOfCleared(p: PageValue)
    requires p.Shape()
    ensures PageCrc(p) == PageCrc(CrcCleared(p))
  {
    hide FeedByte, Checksum, Flat;
    assert CrcCleared(CrcCleared(p)) == CrcCleared(p);
  }

  /** No page that verifies can be turned into another page that verifies by changing at most four
      consecutive bytes, wherever they lie, the checksum fields included. */
  lemma BurstRejected(p: PageValue, q: PageValue, at: nat)
    requires p.Shape() && q.Shape() && at + 4 <= PAGE_BYTES
    requires VerifyStatus(p) == Ok
    requires SameOutside(Flat(p), Flat(q), at) && Flat(p) != Flat(q)
    ensures VerifyStatus(q) != Ok
  {
    hide FeedByte, Checksum, Flat, PageCrc, Fold;
    if VerifyStatus(q) == Ok {
      if at + 4 <= CRC_PAGE_AT || CRC_PAGE_AT + 4 <= at {
        BurstOutsideCrc(p, q, at);
      } else {
        BurstAcrossCrc(p, q, at);
      }
    }
  }

  // ----- The self-test at start-up

  lemma FlippedBit(p: PageValue, q: PageValue)
    requires p.Shape() && VerifyStatus(p) == Ok
    requires q == p.(hot := p.hot[17 := p.hot[17] ^ 1])
    ensures VerifyStatus(q) == ErrCrc
  {
    hide Checksum, PageCrc, Fold, ControlBytes, FeedByte;
    var at := CONTROL_BYTES + 17;
    var s, t := Flat(p), Flat(q);
    assert s[at] == p.hot[17] && t[at] == q.hot[17] && p.hot[17] != p.hot[17] ^ 1;
    forall i | 0 <= i < PAGE_BYTES && !(at <= i < at + 4) ensures s[i] == t[i] {
      assert i < CONTROL_BYTES ==> s[i] == ControlBytes(p.control)[i] && t[i] == ControlBytes(q.control)[i];
    }
    BurstRejected(p, q, at);
  }

  method SealAndVerify(page: Page, ownerRoute: u32, neonCompiled: bool) returns (status: Status)
    requires page.Valid() && ownerRoute <= ROUTE_STORAGE
    modifies page`control
    ensures page.Valid() && status == VerifyStatus(page.Value()) == Ok
  {
    hide VerifyStatus, Sealed;
    ghost var unsealed := page.Value();
    status := page.Seal(1, PAYLOAD_BYTES, ownerRoute, neonCompiled);
    SealedPageVerifies(unsealed, 1, PAYLOAD_BYTES, ownerRoute, neonCompiled);
    if status == Ok {
      status := page.Verify(neonCompiled);
    }
  }

  method FlipAndVerify(page: Page, neonCompiled: bool) returns (status: Status)
    requires page.Valid() && VerifyStatus(page.Value()) == Ok
    modifies page.hot
    ensures page.Valid() && page.Value() == old(page.Value()) && status == ErrCrc
  {
    hide VerifyStatus;
    ghost var before := page.Value();
    var original := page.hot[17];
    page.hot[17] := page.hot[17] ^ 1;
    assert page.Value() == before.(hot := before.hot[17 := before.hot[17] ^ 1]);
    FlippedBit(before, page.Value());
    status := page.Verify(neonCompiled);
    page.hot[17] := original;
    assert page.Value().hot == before.hot;
  }

  /** Seal a patterned page and verify it, see it rejected with one bit flipped, seal and verify it
      again. The probe cannot fail. */
  method RuntimeProbe(neonCompiled: bool) returns (status: Status)
    ensures status == Ok
  {
    hide VerifyStatus;
    var page := new Page();
    FillPattern(page.hot, 0);
    FillPattern(page.buffer, REGION_BYTES);
    FillPattern(page.storage, 2 * REGION_BYTES);
    var route := if neonCompiled then 1 else 0;
    var first := SealAndVerify(page, route, neonCompiled);
    var flipped := FlipAndVerify(page, neonCompiled);
    var again := SealAndVerify(page, route, neonCompiled);
    status := if first == Ok && flipped == ErrCrc && again == Ok then Ok else ErrContract;
  }

  method FillPattern(region: array<byte>, start: nat)
    modifies region
  {
    for i := 0 to region.Length {
      region[i] := ByteOf(((i + start) * 17 + 3) % 256);
    }
  }
}
