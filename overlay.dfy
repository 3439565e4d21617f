/** `DcmOverlayData` of Dicom/Data/DcmOverlayData.cs: the attributes of one
    overlay plane (DICOM PS3.3 section C.9.2), read from a dataset's
    repeating group 60xx, and the unpacking of its one-bit-per-pixel data.
    An overlay never changes after it is loaded, so it is a value here. The
    element numbers of the overlay attributes are those of the DICOM data
    dictionary (PS3.6), placed in the overlay's own group. The readers of
    trunk/Dicom/Data/DcmDataset.cs stand in for the dataset this file was
    written against. */
module Overlay {
  import opened Ints
  import opened Wrappers
  import VRs
  import D = Dataset

  /** The exceptions loading or unpacking can end in. */
  datatype OverlayError =
    | ReadError(e: D.DataError)   // a typed getter's `DicomDataException`
    | NullReference               // the tag holds a sequence, so `GetElement` is null
    | NullData                    // `new BitArray(null)`
    | NegativeSize                // `new int[Rows * Columns]` after the product overflowed
    | InvalidLength(bits: int)    // "Invalid overlay length: " + bits

  datatype OverlayData = OverlayData(
    group: uint16,
    rows: uint16,
    columns: uint16,
    overlayType: string,
    originX: int,
    originY: int,
    bitsAllocated: uint16,
    bitPosition: uint16,
    data: Option<seq<uint8>>,
    description: string,
    subtype: string,
    overlayLabel: string,
    frames: int32,
    frameOrigin: uint16)

  // Element numbers of the overlay attributes.
  const OverlayRows: uint16 := 0x0010
  const OverlayColumns: uint16 := 0x0011
  const NumberOfFramesInOverlay: uint16 := 0x0015
  const OverlayDescription: uint16 := 0x0022
  const OverlayType: uint16 := 0x0040
  const OverlaySubtype: uint16 := 0x0045
  const OverlayOrigin: uint16 := 0x0050
  const ImageFrameOrigin: uint16 := 0x0051
  const OverlayBitsAllocated: uint16 := 0x0100
  const OverlayBitPosition: uint16 := 0x0102
  const OverlayLabel: uint16 := 0x1500
  const OverlayDataElement: uint16 := 0x3000

  /** `OverlayTag`: the dictionary tag's element number in the overlay's
      group. */
  function OverlayTag(group: uint16, element: uint16): D.Tag {
    D.Tag(group, element)
  }

  // ------------------------------------------------------------- loading

  /** `GetUInt16` with the getter's exception carried over. */
  function ReadUInt16(items: seq<D.Item>, t: D.Tag, deflt: uint16): Result<uint16, OverlayError> {
    match D.GetUInt16(items, t, deflt)
    case Success(v) => Success(v)
    case Failure(e) => Failure(ReadError(e))
  }

  function ReadString(items: seq<D.Item>, t: D.Tag, deflt: string): Result<string, OverlayError> {
    match D.GetString(items, t, 0, deflt)
    case Success(v) => Success(v)
    case Failure(e) => Failure(ReadError(e))
  }

  function ReadInt32(items: seq<D.Item>, t: D.Tag, deflt: int32): Result<int32, OverlayError> {
    match D.GetInt32(items, t, deflt)
    case Success(v) => Success(v)
    case Failure(e) => Failure(ReadError(e))
  }

  /** The overlay origin: read only when the tag is present, and kept only
      when the `GetSS` element holds exactly two values. */
  function ReadOrigin(items: seq<D.Item>, t: D.Tag): Result<Option<(int, int)>, OverlayError> {
    if !D.Contains(items, t) then Success(None)
    else
      var e := D.GetElement(items, t);
      if e.None? then Failure(NullReference)
      else if e.value.vr != VRs.SS || !e.value.value.Numbers? then Failure(ReadError(D.IncorrectVR))
      else if |e.value.value.numbers| == 2 then Success(Some((e.value.value.numbers[0], e.value.value.numbers[1])))
      else Success(None)
  }

  /** The overlay data: `elem.ByteBuffer.ToBytes()` when the tag is present.
      `bytesOf` gives an element's encoded value. */
  function ReadData(items: seq<D.Item>, t: D.Tag, bytesOf: D.Item -> seq<uint8>): Result<Option<seq<uint8>>, OverlayError> {
    if !D.Contains(items, t) then Success(None)
    else
      var e := D.GetElement(items, t);
      if e.None? then Failure(NullReference) else Success(Some(bytesOf(e.value)))
  }

  /** What `Load` reads, attribute by attribute, before any exception is
      raised. */
  datatype Reads = Reads(
    rows: Result<uint16, OverlayError>,
    columns: Result<uint16, OverlayError>,
    kind: Result<string, OverlayError>,
    origin: Result<Option<(int, int)>, OverlayError>,
    bitsAllocated: Result<uint16, OverlayError>,
    bitPosition: Result<uint16, OverlayError>,
    data: Result<Option<seq<uint8>>, OverlayError>,
    description: Result<string, OverlayError>,
    subtype: Result<string, OverlayError>,
    labelText: Result<string, OverlayError>,
    frames: Result<int32, OverlayError>,
    frameOrigin: Result<uint16, OverlayError>)

  /** Each attribute read from its tag in the overlay's group, with the
      defaults of `Load`. */
  function ReadAll(items: seq<D.Item>, group: uint16, bytesOf: D.Item -> seq<uint8>): Reads {
    Reads(
      ReadUInt16(items, OverlayTag(group, OverlayRows), 0),
      ReadUInt16(items, OverlayTag(group, OverlayColumns), 0),
      ReadString(items, OverlayTag(group, OverlayType), "Unknown"),
      ReadOrigin(items, OverlayTag(group, OverlayOrigin)),
      ReadUInt16(items, OverlayTag(group, OverlayBitsAllocated), 1),
      ReadUInt16(items, OverlayTag(group, OverlayBitPosition), 0),
      ReadData(items, OverlayTag(group, OverlayDataElement), bytesOf),
      ReadString(items, OverlayTag(group, OverlayDescription), ""),
      ReadString(items, OverlayTag(group, OverlaySubtype), ""),
      ReadString(items, OverlayTag(group, OverlayLabel), ""),
      ReadInt32(items, OverlayTag(group, NumberOfFramesInOverlay), 1),
      ReadUInt16(items, OverlayTag(group, ImageFrameOrigin), 1))
  }

  /** The fields in source order: the first read that threw is the
      exception. */
  function Assemble(group: uint16, r: Reads): (o: Result<OverlayData, OverlayError>)
    ensures o.Success? ==> o.value.group == group
  {
    if r.rows.Failure? then Failure(r.rows.error)
    else if r.columns.Failure? then Failure(r.columns.error)
    else if r.kind.Failure? then Failure(r.kind.error)
    else if r.origin.Failure? then Failure(r.origin.error)
    else if r.bitsAllocated.Failure? then Failure(r.bitsAllocated.error)
    else if r.bitPosition.Failure? then Failure(r.bitPosition.error)
    else if r.data.Failure? then Failure(r.data.error)
    else if r.description.Failure? then Failure(r.description.error)
    else if r.subtype.Failure? then Failure(r.subtype.error)
    else if r.labelText.Failure? then Failure(r.labelText.error)
    else if r.frames.Failure? then Failure(r.frames.error)
    else if r.frameOrigin.Failure? then Failure(r.frameOrigin.error)
    else
      var xy := r.origin.value.GetOr((0, 0));
      Success(OverlayData(group, r.rows.value, r.columns.value, r.kind.value, xy.0, xy.1,
                          r.bitsAllocated.value, r.bitPosition.value, r.data.value,
                          r.description.value, r.subtype.value, r.labelText.value,
                          r.frames.value, r.frameOrigin.value))
  }

  /** `new DcmOverlayData(ds, group)`: `Load` reads each attribute in turn,
      and the first getter that throws ends the construction. */
  function Load(items: seq<D.Item>, group: uint16, bytesOf: D.Item -> seq<uint8>): (r: Result<OverlayData, OverlayError>)
    ensures r.Success? ==> r.value.group == group
  {
    Assemble(group, ReadAll(items, group, bytesOf))
  }

  /** The overlay `Load` gives for a group the dataset does not use. */
  function Defaults(group: uint16): OverlayData {
    OverlayData(group, 0, 0, "Unknown", 0, 0, 1, 0, None, "", "", "", 1, 1)
  }

  /** Every attribute absent: the defaults of `Load`. */
  lemma LoadDefaults(items: seq<D.Item>, group: uint16, bytesOf: D.Item -> seq<uint8>)
    requires forall x :: x in items ==> x.tag.group != group
    ensures Load(items, group, bytesOf) == Success(Defaults(group))
  {
    forall e: uint16 ensures D.GetItem(items, D.Tag(group, e)) == None {
      assert D.Tag(group, e) !in D.Tags(items);
    }
  }

  /** The readers depend on the table only through the item under their
      tag. */
  lemma SameItemSameReads(a: seq<D.Item>, b: seq<D.Item>, t: D.Tag, w: uint16, s: string, n: int32,
                          bytesOf: D.Item -> seq<uint8>)
    requires D.GetItem(a, t) == D.GetItem(b, t)
    ensures ReadUInt16(a, t, w) == ReadUInt16(b, t, w)
    ensures ReadString(a, t, s) == ReadString(b, t, s)
    ensures ReadInt32(a, t, n) == ReadInt32(b, t, n)
    ensures ReadOrigin(a, t) == ReadOrigin(b, t) && ReadData(a, t, bytesOf) == ReadData(b, t, bytesOf)
  {
    assert D.GetElement(a, t) == D.GetElement(b, t);
  }

  /** `Load` reads only the overlay's own group. */
  lemma LoadReadsOnlyGroup(a: seq<D.Item>, b: seq<D.Item>, group: uint16, bytesOf: D.Item -> seq<uint8>)
    requires forall e: uint16 :: D.GetItem(a, D.Tag(group, e)) == D.GetItem(b, D.Tag(group, e))
    ensures Load(a, group, bytesOf) == Load(b, group, bytesOf)
  {
    SameItemSameReads(a, b, OverlayTag(group, OverlayRows), 0, "", 1, bytesOf);
    SameItemSameReads(a, b, OverlayTag(group, OverlayColumns), 0, "", 1, bytesOf);
    SameItemSameReads(a, b, OverlayTag(group, OverlayType), 0, "Unknown", 1, bytesOf);
    SameItemSameReads(a, b, OverlayTag(group, OverlayOrigin), 0, "", 1, bytesOf);
    SameItemSameReads(a, b, OverlayTag(group, OverlayBitsAllocated), 1, "", 1, bytesOf);
    SameItemSameReads(a, b, OverlayTag(group, OverlayBitPosition), 0, "", 1, bytesOf);
    SameItemSameReads(a, b, OverlayTag(group, OverlayDataElement), 0, "", 1, bytesOf);
    SameItemSameReads(a, b, OverlayTag(group, OverlayDescription), 0, "", 1, bytesOf);
    SameItemSameReads(a, b, OverlayTag(group, OverlaySubtype), 0, "", 1, bytesOf);
    SameItemSameReads(a, b, OverlayTag(group, OverlayLabel), 0, "", 1, bytesOf);
    SameItemSameReads(a, b, OverlayTag(group, NumberOfFramesInOverlay), 0, "", 1, bytesOf);
    SameItemSameReads(a, b, OverlayTag(group, ImageFrameOrigin), 1, "", 1, bytesOf);
    assert ReadAll(a, group, bytesOf) == ReadAll(b, group, bytesOf);
  }

  /** The origin is taken from an SS element only when it holds exactly two
      values; otherwise it stays (0, 0). */
  lemma LoadOrigin(items: seq<D.Item>, group: uint16, bytesOf: D.Item -> seq<uint8>)
    requires Load(items, group, bytesOf).Success?
    ensures var ov := Load(items, group, bytesOf).value;
            var e := D.GetElement(items, OverlayTag(group, OverlayOrigin));
            if e.Some? && |e.value.value.numbers| == 2
            then ov.originX == e.value.value.numbers[0] && ov.originY == e.value.value.numbers[1]
            else ov.originX == 0 && ov.originY == 0
  {
  }

  // ---------------------------------------------------- overlay bits

  /** Bit `m` of `x`, counting from the least significant. */
  function TestBit(x: nat, m: nat): bool
    decreases m
  {
    if m == 0 then x % 2 == 1 else TestBit(x / 2, m - 1)
  }

  /** `new BitArray(data).Get(i)`: bit `i % 8` of byte `i / 8`, so the
      first pixel is the least significant bit of the first byte. */
  function Bit(data: seq<uint8>, i: nat): bool
    requires i < 8 * |data|
  {
    TestBit(data[i / 8], i % 8)
  }

  /** `GetOverlayDataS32(bg, fg)`: one entry per pixel, `fg` where the bit is
      set and `bg` where it is clear. */
  function OverlayPixels(ov: OverlayData, bg: int32, fg: int32): (r: Result<seq<int32>, OverlayError>)
    ensures r.Failure? <==> ov.rows * ov.columns >= TWO_31 || ov.data.None? || 8 * |ov.data.value| < ov.rows * ov.columns
    ensures r.Success? ==> |r.value| == ov.rows * ov.columns
  {
    var n := ov.rows * ov.columns;
    if n >= TWO_31 then Failure(NegativeSize)
    else if ov.data.None? then Failure(NullData)
    else if 8 * |ov.data.value| < n then Failure(InvalidLength(8 * |ov.data.value|))
    else Success(seq(n, i requires 0 <= i < n => if Bit(ov.data.value, i) then fg else bg))
  }

  /** The C# array size `Rows * Columns` is an `int` product: at 2^31 and
      above it wraps to a negative size and the allocation throws. */
  lemma LargeOverlayFails(ov: OverlayData, bg: int32, fg: int32)
    requires ov.rows == 0xFFFF && ov.columns == 0xFFFF
    ensures OverlayPixels(ov, bg, fg) == Failure(NegativeSize)
  {
  }

  method GetOverlayDataS32(ov: OverlayData, bg: int32, fg: int32) returns (r: Result<array<int32>, OverlayError>)
    ensures OverlayPixels(ov, bg, fg).Failure? ==> r == Failure(OverlayPixels(ov, bg, fg).error)
    ensures OverlayPixels(ov, bg, fg).Success? ==>
      r.Success? && fresh(r.value) && r.value[..] == OverlayPixels(ov, bg, fg).value
  {
    var n := ov.rows * ov.columns;
    if n >= TWO_31 {
      return Failure(NegativeSize);
    }
    var overlay := new int32[n];
    if ov.data.None? {
      return Failure(NullData);
    }
    var data := ov.data.value;
    if 8 * |data| < n {
      return Failure(InvalidLength(8 * |data|));
    }
    for i := 0 to n
      invariant forall k :: 0 <= k < i ==> overlay[k] == if Bit(data, k) then fg else bg
    {
      if Bit(data, i) {
        overlay[i] := fg;
      } else {
        overlay[i] := bg;
      }
    }
    return Success(overlay);
  }

  /** The byte holding up to eight pixels, the first in the least
      significant bit: how overlay data is packed (DICOM PS3.5 section
      8.1.1 and PS3.3 section C.9.2.1). */
  function ByteOf(bits: seq<bool>): (b: nat)
    requires |bits| <= 8
    ensures b < TwoTo(|bits|)
  {
    if |bits| == 0 then 0 else (if bits[0] then 1 else 0) + 2 * ByteOf(bits[1..])
  }

  function TwoTo(n: nat): (p: nat)
    ensures p >= 1
  {
    if n == 0 then 1 else 2 * TwoTo(n - 1)
  }

  /** Overlay bits packed eight to a byte. */
  function Pack(bits: seq<bool>): (data: seq<uint8>)
    ensures |data| == (|bits| + 7) / 8
    decreases |bits|
  {
    if |bits| == 0 then []
    else
      var k := if |bits| < 8 then |bits| else 8;
      assert TwoTo(8) == 256;
      assert TwoTo(k) <= 256 by { TwoToMono(k, 8); }
      [ByteOf(bits[..k]) as uint8] + Pack(bits[k..])
  }

  lemma {:induction false} TwoToMono(a: nat, b: nat)
    requires a <= b
    ensures TwoTo(a) <= TwoTo(b)
    decreases b
  {
    if a < b {
      TwoToMono(a, b - 1);
    }
  }

  lemma {:induction false} TestBitByteOf(bits: seq<bool>, m: nat)
    requires |bits| <= 8 && m < |bits|
    ensures TestBit(ByteOf(bits), m) == bits[m]
    decreases m
  {
    var b := ByteOf(bits);
    var low := if bits[0] then 1 else 0;
    assert b == low + 2 * ByteOf(bits[1..]);
    if m > 0 {
      assert b / 2 == ByteOf(bits[1..]);
      TestBitByteOf(bits[1..], m - 1);
    }
  }

  /** Unpacking reads back every packed bit. */
  lemma {:induction false} BitOfPack(bits: seq<bool>, i: nat)
    requires i < |bits|
    ensures i < 8 * |Pack(bits)| && Bit(Pack(bits), i) == bits[i]
    decreases |bits|
  {
    var k := if |bits| < 8 then |bits| else 8;
    var data := Pack(bits);
    assert data == [ByteOf(bits[..k]) as uint8] + Pack(bits[k..]);
    if i < k {
      assert i / 8 == 0 && i % 8 == i;
      TestBitByteOf(bits[..k], i);
    } else {
      BitOfPack(bits[k..], i - 8);
      assert i / 8 == (i - 8) / 8 + 1 && i % 8 == (i - 8) % 8;
      assert data[i / 8] == Pack(bits[k..])[(i - 8) / 8];
    }
  }

  /** Data packed from a bit per pixel unpacks to `fg` at exactly the set
      pixels. */
  lemma PackedOverlayUnpacks(ov: OverlayData, bits: seq<bool>, bg: int32, fg: int32)
    requires |bits| == ov.rows * ov.columns < TWO_31
    requires ov.data == Some(Pack(bits))
    ensures OverlayPixels(ov, bg, fg).Success?
    ensures forall i :: 0 <= i < |bits| ==> OverlayPixels(ov, bg, fg).value[i] == if bits[i] then fg else bg
  {
    forall i | 0 <= i < |bits| ensures OverlayPixels(ov, bg, fg).value[i] == if bits[i] then fg else bg {
      BitOfPack(bits, i);
    }
  }

  // ---------------------------------------------------------- overlays

  predicate IsOverlayGroup(g: uint16) {
    0x6000 <= g <= 0x60FF
  }

  /** The groups `GetOverlays` collects: one per (60xx,0010) element, in
      table order. */
  function Groups(items: seq<D.Item>): (gs: seq<uint16>)
    decreases |items|
  {
    if |items| == 0 then []
    else
      var t := items[|items| - 1].tag;
      Groups(items[..|items| - 1]) + (if t.element == OverlayRows && IsOverlayGroup(t.group) then [t.group] else [])
  }

  lemma {:induction false} GroupsMembers(items: seq<D.Item>, g: uint16)
    ensures g in Groups(items) <==> IsOverlayGroup(g) && D.Tag(g, OverlayRows) in D.Tags(items)
    decreases |items|
  {
    if |items| > 0 {
      var init := items[..|items| - 1];
      assert items == init + [items[|items| - 1]];
      assert D.Tags(items) == D.Tags(init) + {items[|items| - 1].tag};
      GroupsMembers(init, g);
    }
  }

  predicate Ascending(gs: seq<uint16>) {
    forall i, j :: 0 <= i < j < |gs| ==> gs[i] < gs[j]
  }

  /** The table is sorted by tag, so the overlay groups come out strictly
      ascending: one overlay per group. */
  lemma {:induction false} GroupsAscending(items: seq<D.Item>)
    requires D.Sorted(items)
    ensures Ascending(Groups(items))
    decreases |items|
  {
    if |items| > 0 {
      var init := items[..|items| - 1];
      var last := items[|items| - 1];
      assert D.Sorted(init);
      GroupsAscending(init);
      var gs := Groups(init);
      forall g | g in gs ensures g < last.tag.group || last.tag.element != OverlayRows {
        GroupsMembers(init, g);
        var x :| x in init && x.tag == D.Tag(g, OverlayRows);
        var j :| 0 <= j < |init| && init[j] == x;
        assert D.Less(items[j].tag, last.tag);
      }
      if last.tag.element == OverlayRows && IsOverlayGroup(last.tag.group) {
        var r := gs + [last.tag.group];
        forall i, j | 0 <= i < j < |r| ensures r[i] < r[j] {
          assert r[i] == gs[i] && gs[i] in gs;
        }
      }
    }
  }

  /** Each group's overlay loaded in turn; the first failure ends the list. */
  function LoadAll(items: seq<D.Item>, groups: seq<uint16>, bytesOf: D.Item -> seq<uint8>): (r: Result<seq<OverlayData>, OverlayError>)
    decreases |groups|
  {
    if |groups| == 0 then Success([])
    else
      match LoadAll(items, groups[..|groups| - 1], bytesOf)
      case Failure(e) => Failure(e)
      case Success(os) =>
        match Load(items, groups[|groups| - 1], bytesOf)
        case Failure(e) => Failure(e)
        case Success(ov) => Success(os + [ov])
  }

  /** A failure in a prefix is the failure of the whole list. */
  lemma {:induction false} LoadAllPrefixFails(items: seq<D.Item>, groups: seq<uint16>, k: nat, bytesOf: D.Item -> seq<uint8>)
    requires k <= |groups| && LoadAll(items, groups[..k], bytesOf).Failure?
    ensures LoadAll(items, groups, bytesOf) == LoadAll(items, groups[..k], bytesOf)
    decreases |groups|
  {
    if k < |groups| {
      var init := groups[..|groups| - 1];
      assert init[..k] == groups[..k];
      LoadAllPrefixFails(items, init, k, bytesOf);
    } else {
      assert groups[..k] == groups;
    }
  }

  /** A successful list holds one overlay per collected group, in order. */
  lemma {:induction false} LoadAllGroups(items: seq<D.Item>, groups: seq<uint16>, bytesOf: D.Item -> seq<uint8>)
    requires LoadAll(items, groups, bytesOf).Success?
    ensures |LoadAll(items, groups, bytesOf).value| == |groups|
    ensures forall k :: 0 <= k < |groups| ==> LoadAll(items, groups, bytesOf).value[k].group == groups[k]
    decreases |groups|
  {
    if |groups| > 0 {
      var init := groups[..|groups| - 1];
      LoadAllGroups(items, init, bytesOf);
      var os := LoadAll(items, init, bytesOf).value;
      var ov := Load(items, groups[|groups| - 1], bytesOf).value;
      var all := LoadAll(items, groups, bytesOf).value;
      assert all == os + [ov];
      forall k | 0 <= k < |groups| ensures all[k].group == groups[k] {
        if k < |init| {
          assert all[k] == os[k] && init[k] == groups[k];
        }
      }
    }
  }

  /** `GetOverlays(ds)`. */
  function Overlays(items: seq<D.Item>, bytesOf: D.Item -> seq<uint8>): Result<seq<OverlayData>, OverlayError> {
    LoadAll(items, Groups(items), bytesOf)
  }

  /** In a sorted table, the overlays are one per (60xx,0010) element, in
      ascending group order. */
  lemma OverlaysOnePerGroup(items: seq<D.Item>, bytesOf: D.Item -> seq<uint8>)
    requires D.Sorted(items) && Overlays(items, bytesOf).Success?
    ensures var os := Overlays(items, bytesOf).value;
      (forall g: uint16 :: (exists k :: 0 <= k < |os| && os[k].group == g) <==>
                           IsOverlayGroup(g) && D.Tag(g, OverlayRows) in D.Tags(items)) &&
      (forall i, j :: 0 <= i < j < |os| ==> os[i].group < os[j].group)
  {
    var gs := Groups(items);
    LoadAllGroups(items, gs, bytesOf);
    GroupsAscending(items);
    forall g: uint16 ensures g in gs <==> IsOverlayGroup(g) && D.Tag(g, OverlayRows) in D.Tags(items) {
      GroupsMembers(items, g);
    }
  }

  /** The first loop of `GetOverlays`: the groups of the (60xx,0010)
      elements. */
  method CollectGroups(items: seq<D.Item>) returns (groups: seq<uint16>)
    ensures groups == Groups(items)
  {
    groups := [];
    for i := 0 to |items|
      invariant groups == Groups(items[..i])
    {
      assert items[..i + 1][..i] == items[..i];
      var t := items[i].tag;
      if t.element == OverlayRows && IsOverlayGroup(t.group) {
        groups := groups + [t.group];
      }
    }
    assert items[..|items|] == items;
  }

  method GetOverlays(items: seq<D.Item>, bytesOf: D.Item -> seq<uint8>) returns (r: Result<seq<OverlayData>, OverlayError>)
    ensures r == Overlays(items, bytesOf)
  {
    var groups := CollectGroups(items);
    var overlays: seq<OverlayData> := [];
    for k := 0 to |groups|
      invariant LoadAll(items, groups[..k], bytesOf) == Success(overlays)
    {
      assert groups[..k + 1][..k] == groups[..k];
      var ov := Load(items, groups[k], bytesOf);
      if ov.Failure? {
        LoadAllPrefixFails(items, groups, k + 1, bytesOf);
        return Failure(ov.error);
      }
      overlays := overlays + [ov.value];
    }
    assert groups[..|groups|] == groups;
    return Success(overlays);
  }
}
