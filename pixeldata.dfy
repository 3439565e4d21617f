/** `DcmPixelData` (trunk): the pixel data item of a dataset together with
    the image-pixel attributes needed to cut it into frames, to add frames
    to it and to decode samples. The sizes, ranges and per-frame rules it
    relies on are in `PixelFrames`; this module holds the object and its
    state. */
module PixelData {
  import opened Ints
  import opened Wrappers
  import EndianIO
  import VRs
  import TS = TransferSyntaxes
  import D = Dataset
  import opened PixelFrames

  const NumberOfFrames := D.Tag(0x0028, 0x0008)
  const SamplesPerPixel := D.Tag(0x0028, 0x0002)
  const PhotometricInterpretation := D.Tag(0x0028, 0x0004)
  const PlanarConfiguration := D.Tag(0x0028, 0x0006)
  const Rows := D.Tag(0x0028, 0x0010)
  const Columns := D.Tag(0x0028, 0x0011)
  const BitsAllocated := D.Tag(0x0028, 0x0100)
  const BitsStored := D.Tag(0x0028, 0x0101)
  const HighBit := D.Tag(0x0028, 0x0102)
  const PixelRepresentation := D.Tag(0x0028, 0x0103)
  const PixelPaddingValue := D.Tag(0x0028, 0x0120)

  /** `_pixelDataItem`: no item (null), an element holding the native
      bytes, a fragment sequence, or some other item (a sequence of
      datasets, which is neither). */
  datatype PixelItem =
    | NoItem
    | Native(vr: VRs.DcmVR, endian: EndianIO.Endian, data: seq<uint8>)
    | Encapsulated(vr: VRs.DcmVR, endian: EndianIO.Endian, offsetTable: seq<uint32>, fragments: seq<seq<uint8>>)
    | OtherItem

  /** The item found under (7FE0,0010); `bytesOf` is the element's byte
      buffer. */
  function FromItem(item: Option<D.Item>, bytesOf: D.Item -> seq<uint8>): PixelItem {
    match item
    case None => NoItem
    case Some(i) =>
      match i
      case Element(_, vr, _, e) => Native(vr, e, bytesOf(i))
      case FragmentSequence(_, vr, e, table, fragments) => Encapsulated(vr, e, table, fragments)
      case ItemSequence(_, _, _) => OtherItem
  }

  /** The fields of a `DcmPixelData`, as one value. */
  datatype PixelState = PixelState(
    ts: TS.DcmTS, frames: int32,
    width: uint16, height: uint16, highBit: uint16, bitsStored: uint16, bitsAllocated: uint16,
    samplesPerPixel: uint16, pixelRepresentation: uint16, planarConfiguration: uint16,
    photometric: string, item: PixelItem, fragmentSize: uint32,
    hasPixelPadding: bool, pixelPaddingValue: int32)

  function IsSigned(s: PixelState): bool { s.pixelRepresentation != 0 }
  function IsPlanar(s: PixelState): bool { s.planarConfiguration != 0 }

  /** `UncompressedFrameSize`. */
  function FrameBytesOf(s: PixelState): int32 {
    UncompressedFrameSize(s.width, s.height, s.bitsAllocated, s.samplesPerPixel)
  }

  // ----------------------------------------------------- a new item

  /** `CreatePixelDataItem` as written: native data with 9 to 16 bits
      allocated gets OB, anything else OW. */
  function NewItemAsWritten(ts: TS.DcmTS, bitsAllocated: uint16): PixelItem {
    if ts.isEncapsulated then Encapsulated(VRs.OB, EndianIO.Little, [], [])
    else if 8 < bitsAllocated <= 16 then Native(VRs.OB, EndianIO.Little, [])
    else Native(VRs.OW, EndianIO.Little, [])
  }

  /** `CreatePixelDataItem` with the value representations the other way
      round: words when more than 8 bits are allocated (section 8.2 of
      DICOM PS3.5 requires OW there), bytes otherwise. The item is empty,
      and fragmented exactly when the transfer syntax is encapsulated. */
  function NewItem(ts: TS.DcmTS, bitsAllocated: uint16): (item: PixelItem)
    ensures item.Encapsulated? == ts.isEncapsulated && (item.Native? || item.Encapsulated?)
    ensures item.Encapsulated? ==> item.offsetTable == [] && item.fragments == [] && item.vr == VRs.OB
    ensures item.Native? ==> item.data == [] && (item.vr == VRs.OW <==> bitsAllocated > 8)
  {
    if ts.isEncapsulated then Encapsulated(VRs.OB, EndianIO.Little, [], [])
    else if bitsAllocated > 8 then Native(VRs.OW, EndianIO.Little, [])
    else Native(VRs.OB, EndianIO.Little, [])
  }

  /** The state of `new DcmPixelData(ts)`. */
  function Initial(ts: TS.DcmTS): PixelState {
    PixelState(ts, 0, 0, 0, 0, 0, 0, 0, 0, 0, "", NewItem(ts, 0), 0xFFFF_FFFF, false, 0)
  }

  /** The state of `new DcmPixelData(ts, old)`: the image attributes and
      the padding value are copied; the frames, the item, the fragment size
      and the padding flag start afresh. */
  function Copied(ts: TS.DcmTS, previous: PixelState): PixelState {
    previous.(ts := ts, frames := 0, item := NewItem(ts, previous.bitsAllocated),
              fragmentSize := 0xFFFF_FFFF, hasPixelPadding := false)
  }

  // ------------------------------------------------- from a dataset

  /** The padding value: a US or SS element's first value, otherwise the
      smallest sample value. */
  function Padding(items: seq<D.Item>, signed: bool, bitsStored: uint16): (r: Result<int32, D.DataError>)
    ensures r.Failure? ==> D.GetElement(items, PixelPaddingValue).Some?
  {
    var e := D.GetElement(items, PixelPaddingValue);
    if e.Some? && (e.value.vr == VRs.US || e.value.vr == VRs.SS) && e.value.value.Numbers? then
      var ns := e.value.value.numbers;
      var lo := if e.value.vr == VRs.US then 0 else -0x8000;
      if |ns| == 0 then Failure(D.IndexOutOfRange)
      else if lo <= ns[0] < lo + 0x1_0000 then Success(ns[0])
      else Failure(D.BadNumber)
    else Success(MinimumDataValue(signed, bitsStored))
  }

  /** `new DcmPixelData(dataset)`: every attribute read with its default,
      the first reading that fails ending the construction. The high bit
      defaults to `(ushort)(BitsAllocated - BitsStored)`, and a padding
      element that is neither US nor SS stands for the smallest sample
      value. */
  function ReadState(items: seq<D.Item>, ts: TS.DcmTS, bytesOf: D.Item -> seq<uint8>): (r: Result<PixelState, D.DataError>)
    ensures r.Success? && HighBit !in D.Tags(items) ==>
      r.value.highBit as int == (r.value.bitsAllocated as int - r.value.bitsStored as int) % TWO_16
    ensures (r.Success? && D.GetElement(items, PixelPaddingValue).Some?
             && D.GetElement(items, PixelPaddingValue).value.vr !in {VRs.US, VRs.SS}) ==>
      r.value.hasPixelPadding && r.value.pixelPaddingValue == MinimumDataValue(IsSigned(r.value), r.value.bitsStored)
    ensures r.Success? ==>
      r.value.ts == ts && r.value.fragmentSize == 0xFFFF_FFFF
      && (r.value.hasPixelPadding <==> PixelPaddingValue in D.Tags(items))
  {
    var frames := D.GetInt32(items, NumberOfFrames, 1);
    var width := D.GetUInt16(items, Columns, 0);
    var height := D.GetUInt16(items, Rows, 0);
    var bitsStored := D.GetUInt16(items, BitsStored, 0);
    var bitsAllocated := D.GetUInt16(items, BitsAllocated, 0);
    if frames.Failure? then Failure(frames.error)
    else if width.Failure? then Failure(width.error)
    else if height.Failure? then Failure(height.error)
    else if bitsStored.Failure? then Failure(bitsStored.error)
    else if bitsAllocated.Failure? then Failure(bitsAllocated.error)
    else
      var highBit := D.GetUInt16(items, HighBit, ToUInt16(bitsAllocated.value as int - bitsStored.value as int));
      var samples := D.GetUInt16(items, SamplesPerPixel, 0);
      var representation := D.GetUInt16(items, PixelRepresentation, 0);
      var planar := D.GetUInt16(items, PlanarConfiguration, 0);
      var photometric := D.GetString(items, PhotometricInterpretation, 0, "");
      if highBit.Failure? then Failure(highBit.error)
      else if samples.Failure? then Failure(samples.error)
      else if representation.Failure? then Failure(representation.error)
      else if planar.Failure? then Failure(planar.error)
      else if photometric.Failure? then Failure(photometric.error)
      else
        var padded := D.Contains(items, PixelPaddingValue);
        var padding := if padded then Padding(items, representation.value != 0, bitsStored.value) else Success(0);
        if padding.Failure? then Failure(padding.error)
        else Success(PixelState(ts, frames.value, width.value, height.value, highBit.value, bitsStored.value,
                                bitsAllocated.value, samples.value, representation.value, planar.value,
                                photometric.value, FromItem(D.GetItem(items, D.PixelData), bytesOf),
                                0xFFFF_FFFF, padded, padding.value))
  }

  /** A dataset without any of the attributes gives one frame, zero sizes,
      no item and no padding. */
  lemma ReadEmpty(ts: TS.DcmTS, bytesOf: D.Item -> seq<uint8>)
    ensures ReadState([], ts, bytesOf) ==
      Success(PixelState(ts, 1, 0, 0, 0, 0, 0, 0, 0, 0, "", NoItem, 0xFFFF_FFFF, false, 0))
  {
  }

  // --------------------------------------------------- reading frames

  /** `GetFrameFragments(frame)`. */
  function Fragments(s: PixelState, frame: int): Result<seq<seq<uint8>>, PixelError> {
    if frame < 0 || frame >= s.frames as int then Failure(FrameOutOfRange)
    else match s.item
      case NoItem => Failure(NullItem)
      case Encapsulated(_, _, table, fragments) => FrameFragments(s.frames as int, table, fragments, frame)
      case _ => Failure(NotFragmented)
  }

  /** `GetFrameSize(frame)`: the uncompressed size for native data, the
      summed fragment lengths for fragmented data. */
  function FrameSize(s: PixelState, frame: int): Result<int32, PixelError> {
    if frame < 0 || frame >= s.frames as int then Failure(FrameOutOfRange)
    else if s.item.NoItem? then Failure(NullItem)
    else if !s.item.Encapsulated? then Success(FrameBytesOf(s))
    else
      var f := Fragments(s, frame);
      if f.Failure? then Failure(f.error) else Success(TotalLength(f.value))
  }

  /** Bytes with each adjacent pair exchanged; a trailing odd byte stays. */
  function SwapPairs(s: seq<uint8>): (r: seq<uint8>)
    ensures EndianIO.GroupsReversed(s, r, 2)
  {
    seq(|s|, k requires 0 <= k < |s| => if k < |s| - |s| % 2 then s[EndianIO.Mirror(k, 2, |s|)] else s[k])
  }

  /** Pair reversal determines its result. */
  lemma SwapPairsUnique(s: seq<uint8>, r: seq<uint8>)
    requires EndianIO.GroupsReversed(s, r, 2)
    ensures r == SwapPairs(s)
  {
  }

  /** `GetFrameDataU8` switches 8-bit OW little-endian data to big-endian
      before reading it. */
  predicate NeedsByteOrderFix(s: PixelState) {
    s.bitsAllocated == 8 && s.item.Native? && s.item.vr == VRs.OW && s.item.endian == EndianIO.Little
  }

  function FixByteOrder(s: PixelState): (t: PixelState)
    ensures t.item.Native? == s.item.Native? && !NeedsByteOrderFix(t)
  {
    if NeedsByteOrderFix(s) then s.(item := Native(VRs.OW, EndianIO.Big, SwapPairs(s.item.data))) else s
  }

  /** The state after `GetFrameDataU8(frame)`. */
  function AfterFrameBytes(s: PixelState, frame: int): PixelState {
    if 0 <= frame < s.frames as int then FixByteOrder(s) else s
  }

  /** `GetFrameDataU8(frame)`: for 8 bits allocated the item must be an
      element (null fails first, anything else fails the cast). */
  function FrameBytes(s: PixelState, frame: int): Result<seq<uint8>, PixelError> {
    if frame < 0 || frame >= s.frames as int then Failure(FrameOutOfRange)
    else if s.bitsAllocated == 8 && !s.item.Native? then Failure(if s.item.NoItem? then NullItem else NotAnElement)
    else match FixByteOrder(s).item
      case NoItem => Failure(NullItem)
      case OtherItem => Failure(NotAnElement)
      case Encapsulated(_, _, _, _) =>
        var f := Fragments(s, frame);
        if f.Failure? then Failure(f.error) else Success(Concat(f.value))
      case Native(_, _, data) => NativeFrame(data, FrameBytesOf(s), frame)
  }

  /** `GetFrameDataU16(frame)`: the frame's bytes as little-endian words;
      an odd byte count overruns the word buffer. */
  function FrameWords(s: PixelState, frame: int): Result<seq<uint16>, PixelError> {
    if frame < 0 || frame >= s.frames as int then Failure(FrameOutOfRange)
    else
      var bytes := match s.item
        case NoItem => Failure(NullItem)
        case OtherItem => Failure(NotAnElement)
        case Encapsulated(_, _, _, _) =>
          var f := Fragments(s, frame);
          if f.Failure? then Failure(f.error) else Success(Concat(f.value))
        case Native(_, _, data) => NativeFrame(data, FrameBytesOf(s), frame);
      if bytes.Failure? then Failure(bytes.error)
      else if |bytes.value| % 2 != 0 then Failure(OutOfBounds)
      else Success(LittleEndianWords(bytes.value))
  }

  /** Reading a frame leaves every frame reading the same bytes as
      before, so the byte-order switch happens at most once in effect. */
  lemma FrameBytesStable(s: PixelState, frame: int, other: int)
    ensures FrameBytes(AfterFrameBytes(s, frame), other) == FrameBytes(s, other)
  {
  }

  /** For native data, a frame read has the size `GetFrameSize` reports;
      for fragmented data, the summed lengths of what it joins. */
  lemma FrameSizeOfBytes(s: PixelState, frame: int)
    requires FrameBytes(s, frame).Success? && |FrameBytes(s, frame).value| < TWO_31
    ensures FrameSize(s, frame) == Success(|FrameBytes(s, frame).value| as int32)
  {
    if s.item.Encapsulated? {
      TotalLengthIsLength(Fragments(s, frame).value);
    }
  }

  // --------------------------------------------------- decoded samples

  function WordsAsNats(w: seq<uint16>): seq<nat> { w }
  function BytesAsNats(b: seq<uint8>): seq<nat> { b }

  /** `GetFrameDataS32(frame)` for single-sample data: 8 or 16 bits, the
      buffer allocated before the frame is read. */
  function MonoFrame(s: PixelState, frame: int): Result<seq<int32>, PixelError>
    requires s.samplesPerPixel == 1
  {
    if s.bitsAllocated != 8 && s.bitsAllocated != 16 then Failure(Unsupported)
    else
      var count := ToInt32(s.width as int * s.height as int);
      if count < 0 then Failure(NegativeSize)
      else
        var data := if s.bitsAllocated == 8 then
            (var b := FrameBytes(s, frame); if b.Failure? then Failure(b.error) else Success(BytesAsNats(b.value)))
          else
            (var w := FrameWords(s, frame); if w.Failure? then Failure(w.error) else Success(WordsAsNats(w.value)));
        if data.Failure? then Failure(data.error)
        else if |data.value| < count as int then Failure(OutOfBounds)
        else Success(MonoSamples(data.value, count as int, IsSigned(s), s.highBit))
  }

  /** `GetFrameDataS32(frame)` for three-sample data: 8 bits, RGB or
      YBR_FULL. */
  function ColourFrame(s: PixelState, frame: int): Result<seq<int32>, PixelError>
    requires s.samplesPerPixel == 3
  {
    if s.bitsAllocated != 8 then Failure(Unsupported)
    else if s.photometric != "RGB" && s.photometric != "YBR_FULL" then Failure(Unsupported)
    else
      var count := ToInt32(s.width as int * s.height as int);
      if count < 0 then Failure(NegativeSize)
      else
        var data := FrameBytes(s, frame);
        if data.Failure? then Failure(data.error)
        else if |data.value| < 3 * count as int then Failure(OutOfBounds)
        else Success(ColourSamples(data.value, count as int, IsPlanar(s)))
  }

  /** `GetFrameDataS32(frame)`. */
  function Samples(s: PixelState, frame: int): Result<seq<int32>, PixelError> {
    if s.samplesPerPixel == 1 then MonoFrame(s, frame)
    else if s.samplesPerPixel == 3 then ColourFrame(s, frame)
    else Failure(Unsupported)
  }

  /** The state after `GetFrameDataS32(frame)`: the 8-bit paths read the
      frame through `GetFrameDataU8`. */
  function AfterSamples(s: PixelState, frame: int): PixelState {
    var count := ToInt32(s.width as int * s.height as int);
    if s.bitsAllocated == 8 && count >= 0 &&
       (s.samplesPerPixel == 1 || (s.samplesPerPixel == 3 && (s.photometric == "RGB" || s.photometric == "YBR_FULL")))
    then AfterFrameBytes(s, frame)
    else s
  }

  /** Signed single-sample data decodes each stored value back: a frame
      holding the two's complement forms of values in the sample range
      yields those values. */
  lemma SignedFrameDecodes(s: PixelState, frame: int, values: seq<int>, p: nat)
    requires s.samplesPerPixel == 1 && IsSigned(s) && MonoFrame(s, frame).Success?
    requires s.bitsAllocated == 8 && p < |MonoFrame(s, frame).value| && p < |values|
    requires -(Pow2(s.highBit as int % 32) as int) <= values[p] < Pow2(s.highBit as int % 32)
    requires FrameBytes(s, frame).value[p] as int == TwosComplement(values[p], s.highBit as int % 32 + 1)
    ensures MonoFrame(s, frame).value[p] as int == values[p]
  {
    SignedSampleRoundTrip(values[p], s.highBit);
  }

  // --------------------------------------------------- adding frames

  /** The item after `AddFrame(data)`: fragmented data gains an offset
      entry and the data cut into fragments, native data gains the bytes. */
  function WithFrame(item: PixelItem, data: seq<uint8>, fragmentSize: uint32): PixelItem
    requires item.Encapsulated? && |data| > 0 ==> fragmentSize > 0
  {
    match item
    case Encapsulated(vr, e, table, fragments) =>
      var pieces := if |data| == 0 then [] else Chunks(data, fragmentSize as nat, 0);
      Encapsulated(vr, e, table + [OffsetAfter(fragments)], fragments + pieces)
    case Native(vr, e, bytes) => Native(vr, e, bytes + data)
    case _ => item
  }

  /** The item after adding each frame in turn. */
  function WithFrames(item: PixelItem, frames: seq<seq<uint8>>, fragmentSize: uint32): PixelItem
    requires fragmentSize > 0
    decreases |frames|
  {
    if |frames| == 0 then item
    else WithFrame(WithFrames(item, frames[..|frames| - 1], fragmentSize), frames[|frames| - 1], fragmentSize)
  }

  /** Adding frames to an empty fragment sequence builds the table and
      fragments `PixelFrames` describes. */
  lemma {:induction false} EncapsulatedBuild(vr: VRs.DcmVR, e: EndianIO.Endian, frames: seq<seq<uint8>>, fragmentSize: uint32)
    requires fragmentSize > 0
    ensures WithFrames(Encapsulated(vr, e, [], []), frames, fragmentSize) ==
            Encapsulated(vr, e, AllOffsets(frames, fragmentSize as nat), AllChunks(frames, fragmentSize as nat))
    decreases |frames|
  {
    if |frames| > 0 {
      EncapsulatedBuild(vr, e, frames[..|frames| - 1], fragmentSize);
    }
  }

  /** Adding frames to an empty element appends their bytes. */
  lemma {:induction false} NativeBuild(vr: VRs.DcmVR, e: EndianIO.Endian, frames: seq<seq<uint8>>, fragmentSize: uint32)
    requires fragmentSize > 0
    ensures WithFrames(Native(vr, e, []), frames, fragmentSize) == Native(vr, e, Concat(frames))
    decreases |frames|
  {
    if |frames| > 0 {
      NativeBuild(vr, e, frames[..|frames| - 1], fragmentSize);
    }
  }

  /** Native frames of the uncompressed frame size, added to a new item,
      read back one by one. */
  lemma NativeReadBack(s: PixelState, frames: seq<seq<uint8>>, k: nat)
    requires !s.ts.isEncapsulated && s.item == NewItem(s.ts, s.bitsAllocated) && s.fragmentSize > 0
    requires k < |frames| < TWO_31 && FrameBytesOf(s) >= 0 && |frames| * FrameBytesOf(s) < TWO_31
    requires forall j :: 0 <= j < |frames| ==> |frames[j]| == FrameBytesOf(s) as int
    ensures FrameBytes(s.(frames := |frames| as int32, item := WithFrames(s.item, frames, s.fragmentSize)), k) ==
            Success(frames[k])
  {
    MulMonoNat(1, |frames|, FrameBytesOf(s) as nat);
    NativeBuild(s.item.vr, s.item.endian, frames, s.fragmentSize);
    NativeFrameRoundTrip(frames, FrameBytesOf(s), k);
  }

  /** Encapsulated frames added to a new item are recovered by
      `GetFrameFragments`, and joined they are the frames again. */
  lemma EncapsulatedReadBack(s: PixelState, frames: seq<seq<uint8>>, k: nat)
    requires s.ts.isEncapsulated && s.item == NewItem(s.ts, s.bitsAllocated) && s.fragmentSize > 0
    requires k < |frames| < TWO_31
    requires forall j :: 0 <= j < |frames| ==> |frames[j]| > 0
    requires Position(AllChunks(frames, s.fragmentSize as nat), |AllChunks(frames, s.fragmentSize as nat)|) < TWO_32
    ensures var t := s.(frames := |frames| as int32, item := WithFrames(s.item, frames, s.fragmentSize));
      && Fragments(t, k) == Success(Chunks(frames[k], s.fragmentSize as nat, 0))
      && (s.bitsAllocated != 8 ==> FrameBytes(t, k) == Success(frames[k]))
  {
    EncapsulatedBuild(VRs.OB, EndianIO.Little, frames, s.fragmentSize);
    EncapsulatedRoundTrip(frames, s.fragmentSize as nat, k);
    ChunksConcat(frames[k], s.fragmentSize as nat, 0);
  }

  /** As written, a new 8-bit native item is OW little-endian, so a
      single frame added to it reads back with its byte pairs exchanged;
      with `NewItem` it reads back as added. */
  lemma AsWrittenEightBitSwapped(s: PixelState, data: seq<uint8>)
    requires !s.ts.isEncapsulated && s.bitsAllocated == 8 && s.frames == 1 && FrameBytesOf(s) as int == |data|
    ensures FrameBytes(s.(item := WithFrame(NewItemAsWritten(s.ts, 8), data, s.fragmentSize)), 0) == Success(SwapPairs(data))
    ensures FrameBytes(s.(item := WithFrame(NewItem(s.ts, 8), data, s.fragmentSize)), 0) == Success(data)
  {
    var asWritten := s.(item := Native(VRs.OW, EndianIO.Little, data));
    assert WithFrame(NewItemAsWritten(s.ts, 8), data, s.fragmentSize) == asWritten.item;
    assert FixByteOrder(asWritten).item == Native(VRs.OW, EndianIO.Big, SwapPairs(data));
    assert SwapPairs(data)[0..|data|] == SwapPairs(data);
    var corrected := s.(item := Native(VRs.OB, EndianIO.Little, data));
    assert WithFrame(NewItem(s.ts, 8), data, s.fragmentSize) == corrected.item;
    assert data[0..|data|] == data;
  }

  /** The pair [1, 2] is one the swap changes. */
  lemma SwapPairsChanges()
    ensures SwapPairs([1, 2]) == [2, 1] != [1, 2]
  {
    var swapped := SwapPairs([1, 2]);
    assert swapped[0] == 2 && swapped[1] == 1;
  }

  // ------------------------------------------------------ the object

  class DcmPixelData {
    var transferSyntax: TS.DcmTS
    var frames: int32
    var width: uint16
    var height: uint16
    var highBit: uint16
    var bitsStored: uint16
    var bitsAllocated: uint16
    var samplesPerPixel: uint16
    var pixelRepresentation: uint16
    var planarConfiguration: uint16
    var photometricInterpretation: string
    var item: PixelItem
    var fragmentSize: uint32
    var hasPixelPadding: bool
    var pixelPaddingValue: int32

    /** The fields as one value. */
    function State(): PixelState
      reads this
    {
      PixelState(transferSyntax, frames, width, height, highBit, bitsStored, bitsAllocated,
                 samplesPerPixel, pixelRepresentation, planarConfiguration, photometricInterpretation,
                 item, fragmentSize, hasPixelPadding, pixelPaddingValue)
    }

    /** `DcmPixelData(ts)`. */
    constructor (ts: TS.DcmTS)
      ensures State() == Initial(ts)
    {
      transferSyntax := ts;
      frames := 0;
      width, height, highBit, bitsStored, bitsAllocated := 0, 0, 0, 0, 0;
      samplesPerPixel, pixelRepresentation, planarConfiguration := 0, 0, 0;
      photometricInterpretation := "";
      item := NewItem(ts, 0);
      fragmentSize := 0xFFFF_FFFF;
      hasPixelPadding, pixelPaddingValue := false, 0;
    }

    /** `DcmPixelData(ts, old)`. */
    constructor Copy(ts: TS.DcmTS, previous: DcmPixelData)
      ensures State() == Copied(ts, previous.State())
    {
      transferSyntax := ts;
      frames := 0;
      width, height := previous.width, previous.height;
      highBit, bitsStored, bitsAllocated := previous.highBit, previous.bitsStored, previous.bitsAllocated;
      samplesPerPixel := previous.samplesPerPixel;
      pixelRepresentation := previous.pixelRepresentation;
      planarConfiguration := previous.planarConfiguration;
      photometricInterpretation := previous.photometricInterpretation;
      pixelPaddingValue := previous.pixelPaddingValue;
      hasPixelPadding := false;
      fragmentSize := 0xFFFF_FFFF;
      item := NewItem(ts, previous.bitsAllocated);
    }

    /** The object built from a state that `ReadState` produced. */
    constructor FromState(s: PixelState)
      ensures State() == s
    {
      transferSyntax, frames := s.ts, s.frames;
      width, height, highBit, bitsStored, bitsAllocated := s.width, s.height, s.highBit, s.bitsStored, s.bitsAllocated;
      samplesPerPixel, pixelRepresentation := s.samplesPerPixel, s.pixelRepresentation;
      planarConfiguration, photometricInterpretation := s.planarConfiguration, s.photometric;
      item, fragmentSize := s.item, s.fragmentSize;
      hasPixelPadding, pixelPaddingValue := s.hasPixelPadding, s.pixelPaddingValue;
    }

    /** `DcmPixelData(dataset)`, the dataset's transfer syntax being `ts`. */
    static method FromDataset(items: seq<D.Item>, ts: TS.DcmTS, bytesOf: D.Item -> seq<uint8>)
      returns (r: Result<DcmPixelData, D.DataError>)
      ensures r.Success? == ReadState(items, ts, bytesOf).Success?
      ensures r.Success? ==> fresh(r.value) && r.value.State() == ReadState(items, ts, bytesOf).value
      ensures r.Failure? ==> r.error == ReadState(items, ts, bytesOf).error
    {
      var s := ReadState(items, ts, bytesOf);
      if s.Failure? {
        return Failure(s.error);
      }
      var p := new DcmPixelData.FromState(s.value);
      return Success(p);
    }

    /** `CreatePixelDataItem`. */
    method CreatePixelDataItem()
      modifies this
      ensures State() == old(State()).(frames := 0, item := NewItem(transferSyntax, bitsAllocated))
    {
      frames := 0;
      item := NewItem(transferSyntax, bitsAllocated);
    }

    /** `GetFrameFragments(frame)`. */
    method GetFrameFragments(frame: int) returns (r: Result<seq<seq<uint8>>, PixelError>)
      ensures r == Fragments(State(), frame)
    {
      if frame < 0 || frame >= frames as int {
        return Failure(FrameOutOfRange);
      }
      match item
      case NoItem =>
        r := Failure(NullItem);
      case Encapsulated(_, _, table, fragments) =>
        r := SelectFragments(frames as int, table, fragments, frame);
      case Native(_, _, _) =>
        r := Failure(NotFragmented);
      case OtherItem =>
        r := Failure(NotFragmented);
    }

    /** `GetFrameSize(frame)`. */
    method GetFrameSize(frame: int) returns (r: Result<int32, PixelError>)
      ensures r == FrameSize(State(), frame)
    {
      if frame < 0 || frame >= frames as int {
        return Failure(FrameOutOfRange);
      }
      if item.NoItem? {
        return Failure(NullItem);
      }
      if !item.Encapsulated? {
        return Success(UncompressedFrameSize(width, height, bitsAllocated, samplesPerPixel));
      }
      var f := GetFrameFragments(frame);
      if f.Failure? {
        return Failure(f.error);
      }
      var size := Measure(f.value);
      return Success(size);
    }

    /** `GetFrameDataU8(frame)`. */
    method GetFrameDataU8(frame: int) returns (r: Result<seq<uint8>, PixelError>)
      modifies this
      ensures r == FrameBytes(old(State()), frame)
      ensures State() == AfterFrameBytes(old(State()), frame)
    {
      if frame < 0 || frame >= frames as int {
        return Failure(FrameOutOfRange);
      }
      if bitsAllocated == 8 {
        match item
        case NoItem =>
          return Failure(NullItem);
        case Native(vr, e, data) =>
          if vr == VRs.OW && e == EndianIO.Little {
            var a := new uint8[|data|](k requires 0 <= k < |data| => data[k]);
            EndianIO.SwapBytes2(a);
            SwapPairsUnique(data, a[..]);
            item := Native(vr, EndianIO.Big, a[..]);
          }
        case Encapsulated(_, _, _, _) =>
          return Failure(NotAnElement);
        case OtherItem =>
          return Failure(NotAnElement);
      }
      match item
      case NoItem =>
        r := Failure(NullItem);
      case OtherItem =>
        r := Failure(NotAnElement);
      case Encapsulated(_, _, table, fragments) =>
        var f := SelectFragments(frames as int, table, fragments, frame);
        if f.Failure? {
          return Failure(f.error);
        }
        var buffer := Join(f.value);
        r := Success(buffer);
      case Native(_, _, data) =>
        r := NativeFrame(data, UncompressedFrameSize(width, height, bitsAllocated, samplesPerPixel), frame);
    }

    /** `GetFrameDataU16(frame)`. */
    method GetFrameDataU16(frame: int) returns (r: Result<seq<uint16>, PixelError>)
      ensures r == FrameWords(State(), frame)
    {
      if frame < 0 || frame >= frames as int {
        return Failure(FrameOutOfRange);
      }
      var bytes: Result<seq<uint8>, PixelError>;
      match item {
      case NoItem =>
        bytes := Failure(NullItem);
      case OtherItem =>
        bytes := Failure(NotAnElement);
      case Encapsulated(_, _, table, fragments) =>
        var f := SelectFragments(frames as int, table, fragments, frame);
        if f.Failure? {
          bytes := Failure(f.error);
        } else {
          var buffer := Join(f.value);
          bytes := Success(buffer);
        }
      case Native(_, _, data) =>
        bytes := NativeFrame(data, UncompressedFrameSize(width, height, bitsAllocated, samplesPerPixel), frame);
      }
      if bytes.Failure? {
        return Failure(bytes.error);
      }
      if |bytes.value| % 2 != 0 {
        return Failure(OutOfBounds);
      }
      return Success(LittleEndianWords(bytes.value));
    }

    /** `GetFrameDataS32(frame)`. */
    method GetFrameDataS32(frame: int) returns (r: Result<array<int32>, PixelError>)
      modifies this
      ensures r.Success? == Samples(old(State()), frame).Success?
      ensures r.Success? ==> fresh(r.value) && r.value[..] == Samples(old(State()), frame).value
      ensures r.Failure? ==> r.error == Samples(old(State()), frame).error
      ensures State() == AfterSamples(old(State()), frame)
    {
      if samplesPerPixel == 1 {
        if bitsAllocated != 8 && bitsAllocated != 16 {
          return Failure(Unsupported);
        }
        var count := ToInt32(width as int * height as int);
        if count < 0 {
          return Failure(NegativeSize);
        }
        var signed := pixelRepresentation != 0;
        var data: seq<nat>;
        if bitsAllocated == 8 {
          var b := GetFrameDataU8(frame);
          if b.Failure? {
            return Failure(b.error);
          }
          data := BytesAsNats(b.value);
        } else {
          var w := GetFrameDataU16(frame);
          if w.Failure? {
            return Failure(w.error);
          }
          data := WordsAsNats(w.value);
        }
        if |data| < count as int {
          return Failure(OutOfBounds);
        }
        var pixels := DecodeMono(data, count as int, signed, highBit);
        return Success(pixels);
      } else if samplesPerPixel == 3 {
        if bitsAllocated != 8 {
          return Failure(Unsupported);
        }
        if photometricInterpretation != "RGB" && photometricInterpretation != "YBR_FULL" {
          return Failure(Unsupported);
        }
        var count := ToInt32(width as int * height as int);
        if count < 0 {
          return Failure(NegativeSize);
        }
        var planar := planarConfiguration != 0;
        var data := GetFrameDataU8(frame);
        if data.Failure? {
          return Failure(data.error);
        }
        if |data.value| < 3 * count as int {
          return Failure(OutOfBounds);
        }
        var pixels := DecodeColour(data.value, count as int, planar);
        return Success(pixels);
      }
      return Failure(Unsupported);
    }

    /** `AddFrame(data)`: the frame count goes up first, then the item is
      extended; a null item or one that is not an element then fails. */
    method AddFrame(data: seq<uint8>) returns (r: Result<(), PixelError>)
      requires item.Encapsulated? && |data| > 0 ==> fragmentSize > 0
      modifies this
      ensures State() == old(State()).(frames := ToInt32(old(frames) as int + 1),
                                       item := WithFrame(old(item), data, old(fragmentSize)))
      ensures r.Failure? <==> old(item).NoItem? || old(item).OtherItem?
    {
      frames := ToInt32(frames as int + 1);
      match item
      case NoItem =>
        r := Failure(NullItem);
      case OtherItem =>
        r := Failure(NotAnElement);
      case Encapsulated(vr, e, table, fragments) =>
        var offset := SumOffsets(fragments);
        var pieces: seq<seq<uint8>> := [];
        if |data| > 0 {
          pieces := Split(data, fragmentSize as nat);
        }
        item := Encapsulated(vr, e, table + [offset], fragments + pieces);
        r := Success(());
      case Native(vr, e, bytes) =>
        item := Native(vr, e, bytes + data);
        r := Success(());
    }
  }
}
