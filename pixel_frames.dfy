/** The frame arithmetic of `DcmPixelData` (trunk/Dicom/Data/DcmPixelData.cs)
    as functions of its fields: sample sizes and value ranges, the size of
    a native frame, the recovery of a frame's fragments from encapsulated
    pixel data (DICOM PS3.5 section A.4), the chunking of a new frame into
    fragments, and the decoding of stored samples into `int` values. The
    class that holds the fields is in module PixelData. */
module PixelFrames {
  import opened Ints
  import opened Wrappers
  import EndianIO

  /** The exceptions the frame accessors end in. */
  datatype PixelError =
    | FrameOutOfRange      // "Requested frame out of range!"
    | NotFragmented        // "No fragmented pixel data!"
    | NullItem             // no pixel data item
    | NotAnElement         // the item cast to `DcmElement` is not one
    | NegativeSize         // `new T[n]` with a negative `n`
    | BadCopyRange         // `Buffer.BlockCopy` outside the source or the target
    | UnknownFrameLength   // "Unable to determine frame length from pixel data sequence!"
    | Unsupported          // BitsAllocated, PhotometricInterpretation or SamplesPerPixel unsupported
    | OutOfBounds          // an index past the end of the frame data

  function Pow2(k: nat): (p: nat)
    ensures p >= 1
  {
    if k == 0 then 1 else 2 * Pow2(k - 1)
  }

  /** `1 << k` on a C# `int`: the count is taken modulo 32 and the result
      wraps to 32 bits. */
  function ShiftOne(k: int): int32 {
    ToInt32(Pow2(k % 32))
  }

  // ------------------------------------------------------ sample sizes

  /** `BytesAllocated`: BitsAllocated / 8, rounded up. */
  function BytesAllocated(bitsAllocated: uint16): (n: nat)
    ensures 8 * n >= bitsAllocated && 8 * n < bitsAllocated + 8
  {
    var bytes := bitsAllocated / 8;
    if bitsAllocated % 8 > 0 then bytes + 1 else bytes
  }

  /** `MinimumDataValue`. */
  function MinimumDataValue(signed: bool, bitsStored: uint16): int32 {
    if signed then ToInt32(-(ShiftOne(bitsStored - 1) as int)) else 0
  }

  /** `MaximumDataValue`. */
  function MaximumDataValue(signed: bool, bitsStored: uint16): int32 {
    if signed then ToInt32(ShiftOne(bitsStored - 1) as int - 1) else ToInt32(ShiftOne(bitsStored) as int - 1)
  }

  lemma {:induction false} Pow2Mono(a: nat, b: nat)
    requires a <= b
    ensures Pow2(a) <= Pow2(b)
    decreases b
  {
    if a < b {
      Pow2Mono(a, b - 1);
    }
  }

  lemma Pow2Of31()
    ensures Pow2(31) == TWO_31
  {
    Pow2Exact30();
  }

  lemma Pow2Bound(k: nat)
    requires k <= 31
    ensures Pow2(k) <= TWO_31
  {
    Pow2Mono(k, 31);
    Pow2Of31();
  }

  /** For 1 to 31 stored bits a signed sample ranges over
      [-2^(bits-1), 2^(bits-1) - 1]. */
  lemma SignedRange(bitsStored: uint16)
    requires 1 <= bitsStored <= 31
    ensures MinimumDataValue(true, bitsStored) == -(Pow2(bitsStored - 1) as int)
    ensures MaximumDataValue(true, bitsStored) == Pow2(bitsStored - 1) - 1
    ensures MaximumDataValue(true, bitsStored) - MinimumDataValue(true, bitsStored) + 1 == Pow2(bitsStored)
  {
    var p := Pow2(bitsStored - 1);
    assert Pow2(bitsStored) == 2 * p;
    Pow2Bound(bitsStored - 1);
    if bitsStored == 31 {
      Pow2Of31();
    } else {
      Pow2Bound(bitsStored);
    }
    assert (bitsStored - 1) % 32 == bitsStored - 1;
    assert ShiftOne(bitsStored - 1) == p by {
      if bitsStored == 31 {
        Pow2Mono(30, 31);
        assert p < TWO_31 by { Pow2Exact30(); }
      } else {
        Pow2Mono(bitsStored - 1, 30);
        Pow2Exact30();
      }
    }
  }

  /** For up to 31 stored bits an unsigned sample ranges over
      [0, 2^bits - 1]. */
  lemma UnsignedRange(bitsStored: uint16)
    requires bitsStored <= 31
    ensures MinimumDataValue(false, bitsStored) == 0
    ensures MaximumDataValue(false, bitsStored) == Pow2(bitsStored) - 1
  {
    var p := Pow2(bitsStored);
    assert bitsStored % 32 == bitsStored;
    if bitsStored == 31 {
      Pow2Of31();
      assert ShiftOne(bitsStored) == ToInt32(TWO_31);
      assert TWO_31 % TWO_32 == TWO_31;
      assert ToInt32(TWO_31) == -TWO_31;
      assert (-TWO_31 - 1) % TWO_32 == TWO_31 - 1;
      assert ToInt32(-TWO_31 - 1) == TWO_31 - 1;
    } else {
      Pow2Mono(bitsStored, 30);
      Pow2Exact30();
      assert ShiftOne(bitsStored) == p;
    }
  }

  /** A C# shift count wraps at 32: with 32 stored bits `1 << 32` is 1, so
      the unsigned maximum is 0; with no stored bits the signed range
      collapses to the extremes of `int`. */
  lemma ShiftWraps()
    ensures MaximumDataValue(false, 32) == 0
    ensures MinimumDataValue(true, 0) == -TWO_31 && MaximumDataValue(true, 0) == TWO_31 - 1
  {
    assert ShiftOne(32) == 1;
    assert (0 - 1) % 32 == 31;
    Pow2Of31();
  }

  lemma Pow2Exact30()
    ensures Pow2(30) == 0x4000_0000
  {
    assert Pow2(10) == 1024;
    assert Pow2(20) == 1024 * 1024 by { Pow2Add(10, 10); }
    Pow2Add(20, 10);
  }

  lemma {:induction false} Pow2Add(a: nat, b: nat)
    ensures Pow2(a + b) == Pow2(a) * Pow2(b)
    decreases b
  {
    if b > 0 {
      Pow2Add(a, b - 1);
      assert Pow2(a + b) == 2 * Pow2(a + b - 1);
    }
  }

  /** `UncompressedFrameSize`: Width × Height × BytesAllocated ×
      SamplesPerPixel as a C# `int` product. */
  function UncompressedFrameSize(width: uint16, height: uint16, bitsAllocated: uint16, samplesPerPixel: uint16): (r: int32)
    ensures var bytes := width * height * BytesAllocated(bitsAllocated) * samplesPerPixel;
            (r == bytes <==> bytes < TWO_31) && (r - bytes) % TWO_32 == 0
  {
    var area: nat := width * height;
    var row: nat := area * BytesAllocated(bitsAllocated);
    var bytes: nat := row * samplesPerPixel;
    ToInt32(bytes)
  }

  // ------------------------------------------------- native frames

  /** `GetFrameDataU8` on native data: the frame is the `size` bytes at
      `size * frame`, both C# `int` values; a range outside the data makes
      `Buffer.BlockCopy` throw. */
  function NativeFrame(data: seq<uint8>, size: int32, frame: int): (r: Result<seq<uint8>, PixelError>)
    ensures r.Success? ==> |r.value| == size
  {
    var offset := ToInt32(size * frame);
    if size < 0 then Failure(NegativeSize)
    else if offset < 0 || offset + size > |data| then Failure(BadCopyRange)
    else Success(data[offset..offset + size])
  }

  /** Frames of one size appended in turn come back out at their index. */
  lemma NativeFrameRoundTrip(frames: seq<seq<uint8>>, size: int32, k: nat)
    requires size >= 0 && k < |frames| && |frames| * size < TWO_31
    requires forall j :: 0 <= j < |frames| ==> |frames[j]| == size
    ensures NativeFrame(Concat(frames), size, k) == Success(frames[k])
  {
    ConcatFixedSize(frames, size, k);
    MulMonoNat(k + 1, |frames|, size);
  }

  /** The concatenation of a list of byte strings. */
  function Concat(parts: seq<seq<uint8>>): (r: seq<uint8>)
    decreases |parts|
  {
    if |parts| == 0 then [] else Concat(parts[..|parts| - 1]) + parts[|parts| - 1]
  }

  lemma {:induction false} ConcatFixedSize(frames: seq<seq<uint8>>, size: nat, k: nat)
    requires k < |frames|
    requires forall j :: 0 <= j < |frames| ==> |frames[j]| == size
    ensures |Concat(frames)| == |frames| * size
    ensures (k + 1) * size <= |Concat(frames)| && Concat(frames)[k * size..(k + 1) * size] == frames[k]
    decreases |frames|
  {
    var n := |frames|;
    var init := frames[..n - 1];
    if k < n - 1 {
      ConcatFixedSize(init, size, k);
      assert (k + 1) * size <= (n - 1) * size by { MulMonoNat(k + 1, n - 1, size); }
      assert Concat(frames) == Concat(init) + frames[n - 1];
    } else if n > 1 {
      ConcatFixedSize(init, size, 0);
      assert Concat(frames) == Concat(init) + frames[n - 1];
      assert |Concat(init)| == (n - 1) * size;
    } else {
      assert Concat(frames) == Concat(init) + frames[0];
    }
  }

  lemma MulMonoNat(a: nat, b: nat, n: nat)
    requires a <= b
    ensures a * n <= b * n
  {
    if n > 0 {
      EndianIO.MulMono(a, b, n);
    }
  }

  // ------------------------------------------- encapsulated frames

  /** `pos += (uint)(8 + fragment.Length)`: an item header and its value. */
  function Advance(pos: uint32, fragment: seq<uint8>): uint32 {
    ToUInt32(pos + 8 + |fragment|)
  }

  /** The first loop of the offset-table path: skip fragments until the
      running position reaches the frame's offset. */
  function Skip(fragments: seq<seq<uint8>>, offset: uint32, pos: uint32, i: nat): (r: (uint32, nat))
    requires i <= |fragments|
    ensures r.1 <= |fragments|
    decreases |fragments| - i
  {
    if pos < offset && i < |fragments| then Skip(fragments, offset, Advance(pos, fragments[i]), i + 1)
    else (pos, i)
  }

  /** The second loop: take fragments until the next frame's offset. */
  function Take(fragments: seq<seq<uint8>>, offset: uint32, stop: uint32, i: nat): seq<seq<uint8>>
    requires i <= |fragments|
    decreases |fragments| - i
  {
    if offset < stop && i < |fragments| then [fragments[i]] + Take(fragments, Advance(offset, fragments[i]), stop, i + 1)
    else []
  }

  /** The offset-table path: `None` when the table's offset does not fall
      on a fragment boundary (the jump to the guessing code). */
  function FromOffsetTable(table: seq<uint32>, fragments: seq<seq<uint8>>, frame: nat): Option<seq<seq<uint8>>>
    requires frame < |table|
  {
    var offset := table[frame];
    var stop: uint32 := if frame + 1 < |table| then table[frame + 1] else 0xFFFF_FFFF;
    var (pos, i) := Skip(fragments, offset, 0, 0);
    if pos != offset then None else Some(Take(fragments, offset, stop, i))
  }

  predicate AllSameLength(fragments: seq<seq<uint8>>, size: nat) {
    forall i :: 0 <= i < |fragments| ==> |fragments[i]| == size
  }

  /** The guessing loop's start: count the fragments whose length differs
      from the first one's, up to the frame's number. */
  function GuessStart(fragments: seq<seq<uint8>>, size: nat, frame: nat, i: nat, count: nat): (start: nat)
    requires i <= |fragments|
    ensures start <= |fragments|
    decreases |fragments| - i
  {
    if i < |fragments| && count < frame then
      GuessStart(fragments, size, frame, i + 1, if |fragments[i]| != size then count + 1 else count)
    else i
  }

  /** From `start`, fragments up to and including the first one whose
      length differs from the first fragment's. */
  function TakeThroughShort(fragments: seq<seq<uint8>>, size: nat, i: nat): seq<seq<uint8>>
    requires i <= |fragments|
    decreases |fragments| - i
  {
    if i == |fragments| then []
    else if |fragments[i]| != size then [fragments[i]]
    else [fragments[i]] + TakeThroughShort(fragments, size, i + 1)
  }

  /** `GetFrameFragments(frame)` for encapsulated data, the frame in range.
      With equal-length fragments the guessing path returns every fragment,
      whatever the frame. */
  function FrameFragments(frames: int, table: seq<uint32>, fragments: seq<seq<uint8>>, frame: nat): (r: Result<seq<seq<uint8>>, PixelError>)
    requires frame < frames
    ensures frames == 1 ==> r == Success(fragments)
    ensures frames != 1 && |fragments| == frames ==> r == Success([fragments[frame]])
  {
    if frames == 1 then Success(fragments)
    else if |fragments| == frames then Success([fragments[frame]])
    else
      var fromTable := if |table| == frames then FromOffsetTable(table, fragments, frame) else None;
      if fromTable.Some? then Success(fromTable.value)
      else if |fragments| > 0 then
        var size := |fragments[0]|;
        if AllSameLength(fragments, size) then
          if |fragments| % frames != 0 then Failure(UnknownFrameLength) else Success(fragments)
        else Success(TakeThroughShort(fragments, size, GuessStart(fragments, size, frame, 0, 0)))
      else Success([])
  }

  /** Equal-length fragments that do not divide among the frames: the
      guessing path throws; when they do, every frame gets all of them. */
  lemma GuessingEqualLengths(frames: int, fragments: seq<seq<uint8>>, frame: nat)
    requires 1 < frames && frame < frames && |fragments| > 0 && |fragments| != frames
    requires AllSameLength(fragments, |fragments[0]|)
    ensures FrameFragments(frames, [], fragments, frame) ==
      if |fragments| % frames != 0 then Failure(UnknownFrameLength) else Success(fragments)
  {
  }

  /** Where each item of the fragment sequence starts, counted from the
      first fragment: the sum of 8 + length over the earlier ones. */
  function Position(fragments: seq<seq<uint8>>, i: nat): (p: nat)
    requires i <= |fragments|
    ensures p >= 8 * i
    decreases i
  {
    if i == 0 then 0 else Position(fragments, i - 1) + 8 + |fragments[i - 1]|
  }

  lemma {:induction false} PositionMono(fragments: seq<seq<uint8>>, i: nat, j: nat)
    requires i <= j <= |fragments|
    ensures Position(fragments, i) + 8 * (j - i) <= Position(fragments, j)
    decreases j
  {
    if i < j {
      PositionMono(fragments, i, j - 1);
    }
  }

  lemma {:induction false} PositionPrefix(fragments: seq<seq<uint8>>, more: seq<seq<uint8>>, i: nat)
    requires i <= |fragments|
    ensures Position(fragments + more, i) == Position(fragments, i)
    decreases i
  {
    if i > 0 {
      PositionPrefix(fragments, more, i - 1);
      assert (fragments + more)[i - 1] == fragments[i - 1];
    }
  }

  /** With positions below 2^32 the skipping loop stops exactly at the
      fragment whose position is the offset. */
  lemma {:induction false} SkipExact(fragments: seq<seq<uint8>>, a: nat, i: nat)
    requires i <= a <= |fragments| && Position(fragments, |fragments|) < TWO_32
    ensures Position(fragments, a) < TWO_32 && Position(fragments, i) < TWO_32
    ensures Skip(fragments, Position(fragments, a), Position(fragments, i), i) == (Position(fragments, a), a)
    decreases a - i
  {
    PositionMono(fragments, a, |fragments|);
    PositionMono(fragments, i, a);
    if i < a {
      PositionMono(fragments, i + 1, a);
      SkipExact(fragments, a, i + 1);
    }
  }

  /** From a fragment boundary, the taking loop collects the fragments up
      to the stop position. */
  lemma {:induction false} TakeExact(fragments: seq<seq<uint8>>, i: nat, b: nat, stop: uint32)
    requires i <= b <= |fragments| && Position(fragments, |fragments|) < TWO_32
    requires Position(fragments, b) <= stop && (b < |fragments| ==> stop == Position(fragments, b))
    ensures Position(fragments, i) < TWO_32
    ensures Take(fragments, Position(fragments, i), stop, i) == fragments[i..b]
    decreases |fragments| - i
  {
    PositionMono(fragments, i, |fragments|);
    if i < b {
      PositionMono(fragments, i + 1, b);
      PositionMono(fragments, b, |fragments|);
      var p := Position(fragments, i);
      assert Advance(p, fragments[i]) == Position(fragments, i + 1);
      assert p < stop;
      TakeExact(fragments, i + 1, b, stop);
      assert Take(fragments, p, stop, i) == [fragments[i]] + Take(fragments, Position(fragments, i + 1), stop, i + 1);
      assert fragments[i..b] == [fragments[i]] + fragments[i + 1..b];
    } else if i < |fragments| {
      assert Position(fragments, i) == stop;
    }
  }

  // ------------------------------------------------ adding frames

  /** `AddFrame` on encapsulated data: consecutive pieces of at most
      `FragmentSize` bytes. */
  function Chunks(data: seq<uint8>, fragmentSize: nat, pos: nat): (r: seq<seq<uint8>>)
    requires fragmentSize > 0
    ensures pos < |data| ==> |r| > 0
    ensures forall j :: 0 <= j < |r| ==> 0 < |r[j]| <= fragmentSize
    decreases |data| - pos
  {
    if pos >= |data| then []
    else
      var count := if fragmentSize < |data| - pos then fragmentSize else |data| - pos;
      [data[pos..pos + count]] + Chunks(data, fragmentSize, pos + count)
  }

  /** The pieces put back together are the frame. */
  lemma {:induction false} ChunksConcat(data: seq<uint8>, fragmentSize: nat, pos: nat)
    requires fragmentSize > 0 && pos <= |data|
    ensures Concat(Chunks(data, fragmentSize, pos)) == data[pos..]
    decreases |data| - pos
  {
    if pos < |data| {
      var count := if fragmentSize < |data| - pos then fragmentSize else |data| - pos;
      var rest := Chunks(data, fragmentSize, pos + count);
      ChunksConcat(data, fragmentSize, pos + count);
      ConcatCons(data[pos..pos + count], rest);
      assert data[pos..] == data[pos..pos + count] + data[pos + count..];
    }
  }

  lemma {:induction false} ConcatCons(x: seq<uint8>, rest: seq<seq<uint8>>)
    ensures Concat([x] + rest) == x + Concat(rest)
    decreases |rest|
  {
    if |rest| > 0 {
      var n := |rest|;
      assert ([x] + rest)[..n] == [x] + rest[..n - 1];
      ConcatCons(x, rest[..n - 1]);
    } else {
      assert [x] + rest == [x];
      assert Concat([x]) == Concat([]) + x;
    }
  }

  /** The fragments after adding each frame in turn to an empty sequence. */
  function AllChunks(frames: seq<seq<uint8>>, fragmentSize: nat): seq<seq<uint8>>
    requires fragmentSize > 0
    decreases |frames|
  {
    if |frames| == 0 then []
    else AllChunks(frames[..|frames| - 1], fragmentSize) + Chunks(frames[|frames| - 1], fragmentSize, 0)
  }

  /** `offset += (uint)(8 + fragment.Length)` over every fragment. */
  function OffsetAfter(fragments: seq<seq<uint8>>): uint32
    decreases |fragments|
  {
    if |fragments| == 0 then 0 else Advance(OffsetAfter(fragments[..|fragments| - 1]), fragments[|fragments| - 1])
  }

  /** The offset table after adding each frame in turn: each entry is the
      position where that frame's first fragment begins. */
  function AllOffsets(frames: seq<seq<uint8>>, fragmentSize: nat): (t: seq<uint32>)
    requires fragmentSize > 0
    ensures |t| == |frames|
    decreases |frames|
  {
    if |frames| == 0 then []
    else
      var init := frames[..|frames| - 1];
      AllOffsets(init, fragmentSize) + [OffsetAfter(AllChunks(init, fragmentSize))]
  }

  /** The offset sum wraps at 2^32 exactly as the positions do. */
  lemma {:induction false} OffsetAfterIsPosition(fragments: seq<seq<uint8>>)
    ensures OffsetAfter(fragments) == Position(fragments, |fragments|) % TWO_32
    decreases |fragments|
  {
    if |fragments| > 0 {
      var n := |fragments|;
      var init := fragments[..n - 1];
      var last := fragments[n - 1];
      OffsetAfterIsPosition(init);
      var p := Position(init, n - 1);
      assert init + [last] == fragments;
      PositionPrefix(init, [last], n - 1);
      assert Position(fragments, n) == p + 8 + |last|;
      ModAbsorb(OffsetAfter(init), p, 8 + |last|);
    }
  }

  lemma {:induction false} AllChunksPrefix(frames: seq<seq<uint8>>, fragmentSize: nat, k: nat)
    requires fragmentSize > 0 && k <= |frames|
    ensures AllChunks(frames[..k], fragmentSize) <= AllChunks(frames, fragmentSize)
    decreases |frames| - k
  {
    if k < |frames| {
      var n := |frames|;
      AllChunksPrefix(frames[..n - 1], fragmentSize, k);
      assert frames[..n - 1][..k] == frames[..k];
    } else {
      assert frames[..k] == frames;
    }
  }

  lemma {:induction false} OffsetsEntry(frames: seq<seq<uint8>>, fragmentSize: nat, k: nat)
    requires fragmentSize > 0 && k < |frames|
    ensures AllOffsets(frames, fragmentSize)[k] == OffsetAfter(AllChunks(frames[..k], fragmentSize))
    decreases |frames|
  {
    var n := |frames|;
    if k < n - 1 {
      OffsetsEntry(frames[..n - 1], fragmentSize, k);
      assert frames[..n - 1][..k] == frames[..k];
    } else {
      assert frames[..n - 1] == frames[..k];
    }
  }

  /** The offset sum over a prefix is that prefix's end position in the
      whole sequence, as long as the positions stay below 2^32. */
  lemma PrefixOffset(pre: seq<seq<uint8>>, all: seq<seq<uint8>>)
    requires pre <= all && Position(all, |all|) < TWO_32
    ensures OffsetAfter(pre) == Position(all, |pre|)
  {
    var rest := all[|pre|..];
    OffsetAfterIsPosition(pre);
    assert all == pre + rest;
    PositionPrefix(pre, rest, |pre|);
    PositionMono(all, |pre|, |all|);
    var p := Position(pre, |pre|);
    assert p == Position(all, |pre|) && 0 <= p < TWO_32;
    ModSmall(p);
  }

  /** Each frame's entry of the offset table is the position of its first
      fragment, as long as the positions stay below 2^32. */
  lemma OffsetIsPosition(frames: seq<seq<uint8>>, fragmentSize: nat, k: nat)
    requires fragmentSize > 0 && k < |frames|
    requires Position(AllChunks(frames, fragmentSize), |AllChunks(frames, fragmentSize)|) < TWO_32
    ensures |AllChunks(frames[..k], fragmentSize)| <= |AllChunks(frames, fragmentSize)|
    ensures AllOffsets(frames, fragmentSize)[k] ==
            Position(AllChunks(frames, fragmentSize), |AllChunks(frames[..k], fragmentSize)|)
  {
    OffsetsEntry(frames, fragmentSize, k);
    AllChunksPrefix(frames, fragmentSize, k);
    PrefixOffset(AllChunks(frames[..k], fragmentSize), AllChunks(frames, fragmentSize));
  }

  /** Every non-empty frame adds at least one fragment. */
  lemma {:induction false} ChunksGrow(frames: seq<seq<uint8>>, fragmentSize: nat, j1: nat, j2: nat)
    requires fragmentSize > 0 && j1 <= j2 <= |frames|
    requires forall j :: 0 <= j < |frames| ==> |frames[j]| > 0
    ensures |AllChunks(frames[..j2], fragmentSize)| >= |AllChunks(frames[..j1], fragmentSize)| + (j2 - j1)
    decreases j2
  {
    if j1 < j2 {
      ChunksGrow(frames, fragmentSize, j1, j2 - 1);
      assert frames[..j2][..j2 - 1] == frames[..j2 - 1];
      assert |Chunks(frames[j2 - 1], fragmentSize, 0)| > 0;
    }
  }

  /** The k-th frame's pieces sit at the k-th start. */
  lemma FrameSlice(frames: seq<seq<uint8>>, fragmentSize: nat, k: nat)
    requires fragmentSize > 0 && k < |frames|
    ensures var all := AllChunks(frames, fragmentSize);
      var a := |AllChunks(frames[..k], fragmentSize)|;
      var b := |AllChunks(frames[..k + 1], fragmentSize)|;
      a <= b <= |all| && all[a..b] == Chunks(frames[k], fragmentSize, 0)
  {
    var all := AllChunks(frames, fragmentSize);
    var pre := AllChunks(frames[..k], fragmentSize);
    var upto := AllChunks(frames[..k + 1], fragmentSize);
    AllChunksPrefix(frames, fragmentSize, k + 1);
    assert frames[..k + 1][..k] == frames[..k];
    assert upto == pre + Chunks(frames[k], fragmentSize, 0);
    assert all[..|upto|] == upto;
  }

  /** A table whose k-th entry is the position of fragment a, and whose
      next entry is the position of fragment b (or which ends at frame k,
      with b the last fragment), selects fragments a up to b. */
  lemma TableSelects(table: seq<uint32>, fragments: seq<seq<uint8>>, k: nat, a: nat, b: nat)
    requires k < |table| && a <= b <= |fragments| && Position(fragments, |fragments|) < TWO_32
    requires table[k] as int == Position(fragments, a)
    requires k + 1 < |table| ==> table[k + 1] as int == Position(fragments, b)
    requires k + 1 == |table| ==> b == |fragments|
    ensures FromOffsetTable(table, fragments, k) == Some(fragments[a..b])
  {
    SkipExact(fragments, a, 0);
    var stop: uint32 := if k + 1 < |table| then table[k + 1] else 0xFFFF_FFFF;
    PositionMono(fragments, b, |fragments|);
    TakeExact(fragments, a, b, stop);
  }

  /** With one fragment per frame, frame k's pieces are fragment k alone. */
  lemma OneChunkEach(frames: seq<seq<uint8>>, fragmentSize: nat, k: nat)
    requires fragmentSize > 0 && k < |frames|
    requires forall j :: 0 <= j < |frames| ==> |frames[j]| > 0
    requires |AllChunks(frames, fragmentSize)| == |frames|
    ensures |AllChunks(frames[..k], fragmentSize)| == k
    ensures |AllChunks(frames[..k + 1], fragmentSize)| == k + 1
  {
    var n := |frames|;
    assert frames[..0] == [] && frames[..n] == frames;
    ChunksGrow(frames, fragmentSize, 0, k);
    ChunksGrow(frames, fragmentSize, k, k + 1);
    ChunksGrow(frames, fragmentSize, k + 1, n);
  }

  /** The offset table built by adding frames selects each frame's pieces. */
  lemma TableRecovers(frames: seq<seq<uint8>>, fragmentSize: nat, k: nat)
    requires fragmentSize > 0 && k < |frames|
    requires Position(AllChunks(frames, fragmentSize), |AllChunks(frames, fragmentSize)|) < TWO_32
    ensures FromOffsetTable(AllOffsets(frames, fragmentSize), AllChunks(frames, fragmentSize), k) ==
            Some(Chunks(frames[k], fragmentSize, 0))
  {
    var all := AllChunks(frames, fragmentSize);
    var a := |AllChunks(frames[..k], fragmentSize)|;
    var b := |AllChunks(frames[..k + 1], fragmentSize)|;
    FrameSlice(frames, fragmentSize, k);
    OffsetIsPosition(frames, fragmentSize, k);
    if k + 1 < |frames| {
      OffsetIsPosition(frames, fragmentSize, k + 1);
    } else {
      assert frames[..k + 1] == frames;
    }
    TableSelects(AllOffsets(frames, fragmentSize), all, k, a, b);
  }

  /** Frames added one by one to an empty fragment sequence are recovered
      by `GetFrameFragments`: frame k gets exactly the pieces the k-th
      `AddFrame` appended, as long as every frame holds data and the item
      positions stay below 2^32. */
  lemma EncapsulatedRoundTrip(frames: seq<seq<uint8>>, fragmentSize: nat, k: nat)
    requires fragmentSize > 0 && k < |frames|
    requires forall j :: 0 <= j < |frames| ==> |frames[j]| > 0
    requires Position(AllChunks(frames, fragmentSize), |AllChunks(frames, fragmentSize)|) < TWO_32
    ensures FrameFragments(|frames|, AllOffsets(frames, fragmentSize), AllChunks(frames, fragmentSize), k) ==
            Success(Chunks(frames[k], fragmentSize, 0))
  {
    var all := AllChunks(frames, fragmentSize);
    FrameSlice(frames, fragmentSize, k);
    if |frames| == 1 {
      assert frames[..0] == [] && frames[..1] == frames;
      assert all[0..|all|] == all;
    } else if |all| == |frames| {
      OneChunkEach(frames, fragmentSize, k);
      assert all[k..k + 1] == [all[k]];
    } else {
      TableRecovers(frames, fragmentSize, k);
    }
  }

  /** Reassembled, the recovered fragments are the frame's bytes. */
  lemma EncapsulatedFrameBytes(frames: seq<seq<uint8>>, fragmentSize: nat, k: nat)
    requires fragmentSize > 0 && k < |frames|
    requires forall j :: 0 <= j < |frames| ==> |frames[j]| > 0
    requires Position(AllChunks(frames, fragmentSize), |AllChunks(frames, fragmentSize)|) < TWO_32
    ensures var r := FrameFragments(|frames|, AllOffsets(frames, fragmentSize), AllChunks(frames, fragmentSize), k);
            r.Success? && Concat(r.value) == frames[k]
  {
    EncapsulatedRoundTrip(frames, fragmentSize, k);
    ChunksConcat(frames[k], fragmentSize, 0);
  }

  // ---------------------------------------------------- sample decoding

  /** The masks `GetFrameDataS32` builds with C# `int` shifts: `(1 << hb) - 1`
      and `(1 << (hb + 1)) - 1` keep the low hb % 32 and (hb + 1) % 32 bits,
      even where the shift reaches the sign bit and the subtraction wraps. */
  lemma MasksAsWritten(highBit: uint16)
    ensures ToInt32(ShiftOne(highBit as int) as int - 1) == Pow2(highBit as int % 32) - 1
    ensures ToInt32(ShiftOne(highBit as int + 1) as int - 1) == Pow2((highBit as int + 1) % 32) - 1
  {
    Pow2Of31();
    Pow2Mono(highBit as int % 32, 31);
    Pow2Mono((highBit as int + 1) % 32, 31);
  }

  /** A signed sample as `GetFrameDataS32` decodes it: the bit at HighBit
      is read as a sign and the bits below it as a magnitude. */
  function SignedSampleAsWritten(d: nat, highBit: uint16): (v: int)
    ensures -(Pow2(highBit as int % 32) as int) < v < Pow2(highBit as int % 32)
    ensures (v < 0) == ((d / Pow2(highBit as int % 32)) % 2 == 1 && d % Pow2(highBit as int % 32) != 0)
  {
    var k := highBit as int % 32;
    var magnitude := d % Pow2(k);
    if (d / Pow2(k)) % 2 == 1 then -magnitude else magnitude
  }

  /** A signed sample read as a two's complement number of HighBit + 1
      bits, the encoding DICOM prescribes for PixelRepresentation 1. */
  function SignedSample(d: nat, highBit: uint16): (v: int)
    ensures -(Pow2(highBit as int % 32) as int) <= v < Pow2(highBit as int % 32)
    ensures (v < 0) == ((d / Pow2(highBit as int % 32)) % 2 == 1)
  {
    var k := highBit as int % 32;
    var low := d % Pow2(k);
    if (d / Pow2(k)) % 2 == 1 then low - Pow2(k) else low
  }

  /** The stored form of a value in two's complement on `bits` bits. */
  function TwosComplement(v: int, bits: nat): (d: nat)
    ensures d < Pow2(bits) && (d - v) % Pow2(bits) == 0
  {
    var p := Pow2(bits);
    EndianIO.DivModUnique(v - v / p * p - v, p, -(v / p), 0);
    v % p
  }

  /** Every value of the sample range survives storing and decoding. */
  lemma SignedSampleRoundTrip(v: int, highBit: uint16)
    requires -(Pow2(highBit as int % 32) as int) <= v < Pow2(highBit as int % 32)
    ensures SignedSample(TwosComplement(v, highBit as int % 32 + 1), highBit) == v
  {
    var k := highBit as int % 32;
    var p := Pow2(k);
    assert Pow2(k + 1) == 2 * p;
    var d := TwosComplement(v, k + 1);
    if v >= 0 {
      EndianIO.DivModUnique(v, 2 * p, 0, v);
      EndianIO.DivModUnique(d, p, 0, v);
    } else {
      EndianIO.DivModUnique(v, 2 * p, -1, v + 2 * p);
      EndianIO.DivModUnique(d, p, 1, v + p);
    }
  }

  /** As written, an 8-bit sample 0xFF with HighBit 7 decodes to -127; in
      two's complement it is -1. */
  lemma SignedSampleAsWrittenMisreads()
    ensures SignedSampleAsWritten(0xFF, 7) == -127
    ensures SignedSample(0xFF, 7) == -1
  {
    assert Pow2(7) == 128;
  }

  /** As written, 0x80 and 0x00 both decode to 0, so the most negative
      8-bit value is lost; in two's complement they differ. */
  lemma SignedSampleAsWrittenNegativeZero()
    ensures SignedSampleAsWritten(0x80, 7) == SignedSampleAsWritten(0x00, 7) == 0
    ensures SignedSample(0x80, 7) == -128
  {
    assert Pow2(7) == 128;
  }

  /** An unsigned sample keeps its low HighBit + 1 bits (counted modulo 32,
      as the C# shift does). */
  function UnsignedSample(d: nat, highBit: uint16): (v: nat)
    ensures v < Pow2((highBit as int + 1) % 32)
    ensures (v - d) % Pow2((highBit as int + 1) % 32) == 0
  {
    TwosComplement(d, (highBit as int + 1) % 32)
  }

  /** A sample that fits in HighBit + 1 bits is its own value. */
  lemma UnsignedSampleKeepsStored(d: nat, highBit: uint16)
    requires highBit < 31 && d < Pow2(highBit as int + 1)
    ensures UnsignedSample(d, highBit) == d
  {
    EndianIO.DivModUnique(d, Pow2(highBit as int + 1), 0, d);
  }

  /** `(c0 << 16) | (c1 << 8) | c2`: the three bytes do not overlap. */
  function Rgb(c0: uint8, c1: uint8, c2: uint8): (p: int)
    ensures 0 <= p < 0x100_0000
    ensures p / 0x1_0000 == c0 as int && (p / 0x100) % 0x100 == c1 as int && p % 0x100 == c2 as int
  {
    var p := c0 as int * 0x1_0000 + c1 as int * 0x100 + c2 as int;
    EndianIO.DivModUnique(p, 0x1_0000, c0 as int, c1 as int * 0x100 + c2 as int);
    EndianIO.DivModUnique(p, 0x100, c0 as int * 0x100 + c1 as int, c2 as int);
    EndianIO.DivModUnique(c0 as int * 0x100 + c1 as int, 0x100, c0 as int, c1 as int);
    p
  }

  /** The colour of pixel i of a three-sample frame of `count` pixels:
      planar data holds three planes of `count` bytes, interleaved data
      three bytes per pixel. */
  function PixelAt(data: seq<uint8>, count: nat, planar: bool, i: nat): int
    requires i < count && |data| >= 3 * count
  {
    if planar then Rgb(data[i], data[count + i], data[2 * count + i])
    else Rgb(data[3 * i], data[3 * i + 1], data[3 * i + 2])
  }

  datatype Colour = Colour(c0: uint8, c1: uint8, c2: uint8)

  /** Colours laid out three bytes per pixel. */
  function Interleaved(cs: seq<Colour>): (d: seq<uint8>)
    ensures |d| == 3 * |cs|
    ensures forall i :: 0 <= i < |cs| ==>
      d[3 * i] == cs[i].c0 && d[3 * i + 1] == cs[i].c1 && d[3 * i + 2] == cs[i].c2
  {
    if |cs| == 0 then []
    else
      var rest := Interleaved(cs[1..]);
      var d := [cs[0].c0, cs[0].c1, cs[0].c2] + rest;
      assert forall i :: 1 <= i < |cs| ==> d[3 * i] == rest[3 * (i - 1)] && cs[i] == cs[1..][i - 1];
      d
  }

  function Plane(cs: seq<Colour>, c: nat): (d: seq<uint8>)
    requires c < 3
    ensures |d| == |cs|
    ensures forall i :: 0 <= i < |cs| ==> d[i] == [cs[i].c0, cs[i].c1, cs[i].c2][c]
  {
    seq(|cs|, i requires 0 <= i < |cs| => [cs[i].c0, cs[i].c1, cs[i].c2][c])
  }

  /** Colours laid out as three planes. */
  function Planes(cs: seq<Colour>): (d: seq<uint8>)
    ensures |d| == 3 * |cs|
  {
    Plane(cs, 0) + Plane(cs, 1) + Plane(cs, 2)
  }

  /** Interleaved colours decode back to each pixel's colour, packed. */
  lemma InterleavedDecodes(cs: seq<Colour>, i: nat)
    requires i < |cs|
    ensures PixelAt(Interleaved(cs), |cs|, false, i) == Rgb(cs[i].c0, cs[i].c1, cs[i].c2)
  {
    var d := Interleaved(cs);
    assert d[3 * i] == cs[i].c0 && d[3 * i + 1] == cs[i].c1 && d[3 * i + 2] == cs[i].c2;
  }

  /** Planar colours decode back to each pixel's colour, packed. */
  lemma PlanesDecode(cs: seq<Colour>, i: nat)
    requires i < |cs|
    ensures PixelAt(Planes(cs), |cs|, true, i) == Rgb(cs[i].c0, cs[i].c1, cs[i].c2)
  {
    var n := |cs|;
    var d := Planes(cs);
    assert d[i] == Plane(cs, 0)[i] == cs[i].c0;
    assert d[n + i] == Plane(cs, 1)[i] == cs[i].c1;
    assert d[2 * n + i] == Plane(cs, 2)[i] == cs[i].c2;
  }

  /** Bytes copied into a `ushort[]` on a little-endian host: each word is
      the low byte plus 256 times the high byte. */
  function LittleEndianWords(b: seq<uint8>): (w: seq<uint16>)
    requires |b| % 2 == 0
    ensures |w| == |b| / 2
  {
    seq(|b| / 2, i requires 0 <= i < |b| / 2 => b[2 * i] as uint16 + 256 * b[2 * i + 1] as uint16)
  }

  /** The bytes of words in little-endian order. */
  function WordBytes(w: seq<uint16>): (b: seq<uint8>)
    ensures |b| == 2 * |w|
    ensures forall i :: 0 <= i < |w| ==> b[2 * i] as int == w[i] as int % 256 && b[2 * i + 1] as int == w[i] as int / 256
  {
    if |w| == 0 then []
    else
      var rest := WordBytes(w[1..]);
      var b := [(w[0] % 256) as uint8, (w[0] / 256) as uint8] + rest;
      assert forall i :: 1 <= i < |w| ==> b[2 * i] == rest[2 * (i - 1)] && w[i] == w[1..][i - 1];
      b
  }

  /** Reading written words gives them back. */
  lemma WordsRoundTrip(w: seq<uint16>)
    ensures LittleEndianWords(WordBytes(w)) == w
  {
    var r := LittleEndianWords(WordBytes(w));
    forall i | 0 <= i < |w|
      ensures r[i] == w[i]
    {
      EndianIO.DivModUnique(w[i] as int, 256, w[i] as int / 256, w[i] as int % 256);
    }
  }

  // ------------------------------------------- the loops, step by step

  /** The first loop of the offset-table path: walk the items until the
      running position reaches the frame's offset. */
  method SkipTo(fragments: seq<seq<uint8>>, offset: uint32) returns (pos: uint32, i: nat)
    ensures (pos, i) == Skip(fragments, offset, 0, 0)
  {
    pos, i := 0, 0;
    while pos < offset && i < |fragments|
      invariant i <= |fragments|
      invariant Skip(fragments, offset, pos, i) == Skip(fragments, offset, 0, 0)
      decreases |fragments| - i
    {
      pos := Advance(pos, fragments[i]);
      i := i + 1;
    }
  }

  /** The second loop: collect items while the position is below `stop`. */
  method TakeUntil(fragments: seq<seq<uint8>>, offset: uint32, stop: uint32, start: nat) returns (taken: seq<seq<uint8>>)
    requires start <= |fragments|
    ensures taken == Take(fragments, offset, stop, start)
  {
    taken := [];
    var pos: uint32, i: nat := offset, start;
    while pos < stop && i < |fragments|
      invariant start <= i <= |fragments|
      invariant taken + Take(fragments, pos, stop, i) == Take(fragments, offset, stop, start)
      decreases |fragments| - i
    {
      taken := taken + [fragments[i]];
      pos := Advance(pos, fragments[i]);
      i := i + 1;
    }
  }

  /** The `allSameLength` loop, leaving at the first different length. */
  method SameLengths(fragments: seq<seq<uint8>>, size: nat) returns (same: bool)
    ensures same == AllSameLength(fragments, size)
  {
    same := true;
    var i := 0;
    while i < |fragments|
      invariant i <= |fragments|
      invariant same == (forall j :: 0 <= j < i ==> |fragments[j]| == size)
    {
      if |fragments[i]| != size {
        same := false;
        break;
      }
      i := i + 1;
    }
  }

  /** The counting loop of the unequal-length guess. */
  method FindStart(fragments: seq<seq<uint8>>, size: nat, frame: nat) returns (start: nat)
    ensures start == GuessStart(fragments, size, frame, 0, 0)
  {
    var count := 0;
    start := 0;
    while start < |fragments| && count < frame
      invariant start <= |fragments|
      invariant GuessStart(fragments, size, frame, start, count) == GuessStart(fragments, size, frame, 0, 0)
      decreases |fragments| - start
    {
      if |fragments[start]| != size {
        count := count + 1;
      }
      start := start + 1;
    }
  }

  /** The collecting loop of the unequal-length guess. */
  method TakeShort(fragments: seq<seq<uint8>>, size: nat, start: nat) returns (taken: seq<seq<uint8>>)
    requires start <= |fragments|
    ensures taken == TakeThroughShort(fragments, size, start)
  {
    taken := [];
    var i := start;
    while i < |fragments|
      invariant start <= i <= |fragments|
      invariant taken + TakeThroughShort(fragments, size, i) == TakeThroughShort(fragments, size, start)
      decreases |fragments| - i
    {
      taken := taken + [fragments[i]];
      if |fragments[i]| != size {
        assert TakeThroughShort(fragments, size, i) == [fragments[i]];
        return;
      }
      i := i + 1;
    }
  }

  /** `GetFrameFragments` on a fragment sequence, the frame in range. */
  method SelectFragments(frames: int, table: seq<uint32>, fragments: seq<seq<uint8>>, frame: nat)
    returns (r: Result<seq<seq<uint8>>, PixelError>)
    requires frame < frames
    ensures r == FrameFragments(frames, table, fragments, frame)
  {
    if frames == 1 {
      return Success(fragments);
    }
    if |fragments| == frames {
      return Success([fragments[frame]]);
    }
    if |table| == frames {
      var offset := table[frame];
      var stop: uint32 := 0xFFFF_FFFF;
      if frame + 1 < frames {
        stop := table[frame + 1];
      }
      var pos, i := SkipTo(fragments, offset);
      if pos == offset {
        var taken := TakeUntil(fragments, offset, stop, i);
        return Success(taken);
      }
    }
    if |fragments| > 0 {
      var size := |fragments[0]|;
      var same := SameLengths(fragments, size);
      if same {
        if |fragments| % frames != 0 {
          return Failure(UnknownFrameLength);
        }
        return Success(fragments);
      }
      var start := FindStart(fragments, size, frame);
      var taken := TakeShort(fragments, size, start);
      return Success(taken);
    }
    return Success([]);
  }

  /** The offset loop of `AddFrame`: `offset += (uint)(8 + fragment.Length)`. */
  method SumOffsets(fragments: seq<seq<uint8>>) returns (offset: uint32)
    ensures offset == OffsetAfter(fragments)
  {
    offset := 0;
    var i := 0;
    while i < |fragments|
      invariant i <= |fragments|
      invariant offset == OffsetAfter(fragments[..i])
    {
      assert fragments[..i + 1][..i] == fragments[..i];
      offset := Advance(offset, fragments[i]);
      i := i + 1;
    }
    assert fragments[..i] == fragments;
  }

  /** The chunking loop of `AddFrame`: pieces of at most `fragmentSize`
      bytes, appended in order. */
  method Split(data: seq<uint8>, fragmentSize: nat) returns (pieces: seq<seq<uint8>>)
    requires fragmentSize > 0
    ensures pieces == Chunks(data, fragmentSize, 0)
  {
    pieces := [];
    var pos := 0;
    while pos < |data|
      invariant pieces + Chunks(data, fragmentSize, pos) == Chunks(data, fragmentSize, 0)
      decreases |data| - pos
    {
      var count := if fragmentSize < |data| - pos then fragmentSize else |data| - pos;
      pieces := pieces + [data[pos..pos + count]];
      pos := pos + count;
    }
  }

  /** The copying loop of `GetFrameDataU8`: the fragments, one after the
      other. */
  method Join(parts: seq<seq<uint8>>) returns (buffer: seq<uint8>)
    ensures buffer == Concat(parts)
  {
    buffer := [];
    var i := 0;
    while i < |parts|
      invariant i <= |parts|
      invariant buffer == Concat(parts[..i])
    {
      assert parts[..i + 1][..i] == parts[..i];
      buffer := buffer + parts[i];
      i := i + 1;
    }
    assert parts[..i] == parts;
  }

  /** `size += fragment.Length` on a C# `int`, over the fragments in turn. */
  function TotalLength(parts: seq<seq<uint8>>): int32
    decreases |parts|
  {
    if |parts| == 0 then 0 else ToInt32(TotalLength(parts[..|parts| - 1]) as int + |parts[|parts| - 1]|)
  }

  /** Below 2^31 bytes the running sum is the length of the joined frame. */
  lemma {:induction false} TotalLengthIsLength(parts: seq<seq<uint8>>)
    requires |Concat(parts)| < TWO_31
    ensures TotalLength(parts) as int == |Concat(parts)|
    decreases |parts|
  {
    if |parts| > 0 {
      TotalLengthIsLength(parts[..|parts| - 1]);
    }
  }

  /** The size loop of `GetFrameSize`. */
  method Measure(parts: seq<seq<uint8>>) returns (size: int32)
    ensures size == TotalLength(parts)
  {
    size := 0;
    var i := 0;
    while i < |parts|
      invariant i <= |parts|
      invariant size == TotalLength(parts[..i])
    {
      assert parts[..i + 1][..i] == parts[..i];
      size := ToInt32(size as int + |parts[i]|);
      i := i + 1;
    }
    assert parts[..i] == parts;
  }

  /** One decoded sample of single-sample data, as an `int`. */
  function MonoSample(d: nat, signed: bool, highBit: uint16): int32 {
    Pow2Of31();
    Pow2Mono(highBit as int % 32, 31);
    Pow2Mono((highBit as int + 1) % 32, 31);
    if signed then SignedSample(d, highBit) as int32 else UnsignedSample(d, highBit) as int32
  }

  /** The samples of a single-sample frame of `count` pixels. */
  function MonoSamples(data: seq<nat>, count: nat, signed: bool, highBit: uint16): (r: seq<int32>)
    requires count <= |data|
    ensures |r| == count
  {
    seq(count, p requires 0 <= p < count => MonoSample(data[p], signed, highBit))
  }

  /** The decoding loop for single-sample data. */
  method DecodeMono(data: seq<nat>, count: nat, signed: bool, highBit: uint16) returns (pixels: array<int32>)
    requires count <= |data|
    ensures fresh(pixels) && pixels[..] == MonoSamples(data, count, signed, highBit)
  {
    pixels := new int32[count];
    var p := 0;
    while p < count
      invariant p <= count
      invariant forall j :: 0 <= j < p ==> pixels[j] == MonoSample(data[j], signed, highBit)
    {
      pixels[p] := MonoSample(data[p], signed, highBit);
      p := p + 1;
    }
  }

  /** The colours of a three-sample frame of `count` pixels. */
  function ColourSamples(data: seq<uint8>, count: nat, planar: bool): (r: seq<int32>)
    requires 3 * count <= |data|
    ensures |r| == count
  {
    seq(count, i requires 0 <= i < count => PixelAt(data, count, planar, i) as int32)
  }

  /** The decoding loop for three-sample data. */
  method DecodeColour(data: seq<uint8>, count: nat, planar: bool) returns (pixels: array<int32>)
    requires 3 * count <= |data|
    ensures fresh(pixels) && pixels[..] == ColourSamples(data, count, planar)
  {
    pixels := new int32[count];
    var i := 0;
    while i < count
      invariant i <= count
      invariant forall j :: 0 <= j < i ==> pixels[j] == PixelAt(data, count, planar, j) as int32
    {
      if planar {
        pixels[i] := Rgb(data[i], data[count + i], data[2 * count + i]) as int32;
      } else {
        pixels[i] := Rgb(data[3 * i], data[3 * i + 1], data[3 * i + 2]) as int32;
      }
      i := i + 1;
    }
  }
}
