/** The RLE Lossless codec of Dicom/Codec/DcmRleCodec.cs (DICOM PS3.5 Annex G).
    A frame is split into one segment per byte of each sample; each segment is
    compressed into PackBits runs; the compressed frame starts with a header of
    sixteen little-endian 32-bit words, the segment count and fifteen segment
    offsets. */
module RleCodec {
  import opened Wrappers
  import opened Ints

  /** `(byte)x` in an unchecked context. */
  function ToUInt8(x: int): (r: uint8)
    ensures 0 <= x < TWO_8 ==> r == x
    ensures x == TWO_8 ==> r == 0
  {
    x % TWO_8
  }

  function Repeat(b: uint8, n: nat): (r: seq<uint8>)
    ensures |r| == n && forall i :: 0 <= i < n ==> r[i] == b
  {
    seq(n, _ => b)
  }

  // ---------------------------------------------------------------------
  // Runs (PS3.5 section G.3)
  // ---------------------------------------------------------------------

  /** A run as the encoder emits it: a literal run of 1 to 128 bytes, or a
      replicate run of one byte repeated 1 to 128 times. */
  datatype Run = Literal(bytes: seq<uint8>) | Replicate(n: nat, b: uint8)

  predicate ValidRun(r: Run) {
    match r
    case Literal(bs) => 1 <= |bs| <= 128
    case Replicate(n, _) => 1 <= n <= 128
  }

  predicate ValidRuns(runs: seq<Run>) {
    forall k :: 0 <= k < |runs| ==> ValidRun(runs[k])
  }

  /** The header byte: `count - 1` for a literal run, `(byte)(257 - count)`
      for a replicate run. */
  function RunHeader(r: Run): uint8
    requires ValidRun(r)
  {
    match r
    case Literal(bs) => |bs| - 1
    case Replicate(n, _) => if n == 1 then 0 else (257 - n) as uint8
  }

  /** The bytes of a run in the compressed segment. */
  function RunBytes(r: Run): seq<uint8>
    requires ValidRun(r)
  {
    match r
    case Literal(bs) => [RunHeader(r)] + bs
    case Replicate(_, b) => [RunHeader(r), b]
  }

  /** The bytes a run stands for. */
  function Expand(r: Run): seq<uint8> {
    match r
    case Literal(bs) => bs
    case Replicate(n, b) => Repeat(b, n)
  }

  function Encoded(runs: seq<Run>): seq<uint8>
    requires ValidRuns(runs)
  {
    if |runs| == 0 then [] else RunBytes(runs[0]) + Encoded(runs[1..])
  }

  function Expanded(runs: seq<Run>): seq<uint8> {
    if |runs| == 0 then [] else Expand(runs[0]) + Expanded(runs[1..])
  }

  lemma EncodedAppend(runs: seq<Run>, r: Run)
    requires ValidRuns(runs) && ValidRun(r)
    ensures ValidRuns(runs + [r])
    ensures Encoded(runs + [r]) == Encoded(runs) + RunBytes(r)
    ensures Expanded(runs + [r]) == Expanded(runs) + Expand(r)
  {
    ValidAppend(runs, r);
    EncodedSnoc(runs, r);
    ExpandedSnoc(runs, r);
  }

  lemma ValidAppend(runs: seq<Run>, r: Run)
    requires ValidRuns(runs) && ValidRun(r)
    ensures ValidRuns(runs + [r])
  {
    forall k | 0 <= k < |runs| + 1
      ensures ValidRun((runs + [r])[k])
    {
      if k < |runs| {
        assert (runs + [r])[k] == runs[k];
      }
    }
  }

  lemma {:induction false} EncodedSnoc(runs: seq<Run>, r: Run)
    requires ValidRuns(runs) && ValidRun(r) && ValidRuns(runs + [r])
    ensures Encoded(runs + [r]) == Encoded(runs) + RunBytes(r)
    decreases |runs|
  {
    if |runs| == 0 {
      assert runs + [r] == [r];
      assert [r][1..] == [];
    } else {
      var rest := runs[1..];
      assert (runs + [r])[1..] == rest + [r];
      assert (runs + [r])[0] == runs[0];
      ValidAppend(rest, r);
      EncodedSnoc(rest, r);
      assert Encoded(runs + [r]) == RunBytes(runs[0]) + (Encoded(rest) + RunBytes(r));
    }
  }

  lemma {:induction false} ExpandedSnoc(runs: seq<Run>, r: Run)
    ensures Expanded(runs + [r]) == Expanded(runs) + Expand(r)
    decreases |runs|
  {
    if |runs| == 0 {
      assert runs + [r] == [r];
      assert [r][1..] == [];
    } else {
      var rest := runs[1..];
      assert (runs + [r])[1..] == rest + [r];
      assert (runs + [r])[0] == runs[0];
      ExpandedSnoc(rest, r);
      assert Expanded(runs + [r]) == Expand(runs[0]) + (Expanded(rest) + Expand(r));
    }
  }

  /** The bytes given to `Encode` for segment `j`: the runs closed by the
      next `NextSegment`, or the current input for the last segment. */
  ghost function InputOf(closed: seq<seq<Run>>, input: seq<uint8>, j: nat): seq<uint8>
    requires j < |closed|
  {
    if j + 1 < |closed| then Expanded(closed[j + 1]) else input
  }

  /** The header byte rules of PS3.5 section G.3.1: a literal run of n bytes
      has header n - 1 (bit 7 clear); a replicate run of n >= 2 bytes has
      header 257 - n, which has bit 7 set and is never 0x80. A replicate chunk
      of a single byte gets header 0x00 and so reads back as a literal run of
      that one byte. */
  lemma RunHeaderRules(r: Run)
    requires ValidRun(r)
    ensures r.Literal? ==> RunHeader(r) < 0x80 && RunHeader(r) + 1 == |r.bytes|
    ensures r.Replicate? && r.n >= 2 ==> 0x81 <= RunHeader(r) && 257 - RunHeader(r) == r.n
    ensures r.Replicate? && r.n == 1 ==> RunHeader(r) == 0
    ensures RunHeader(r) != 0x80
  {
  }

  // ---------------------------------------------------------------------
  // Decoding a segment (RLEDecoder.Decode)
  // ---------------------------------------------------------------------

  function Prepend(x: seq<uint8>, rest: Option<seq<uint8>>): (r: Option<seq<uint8>>)
    ensures r.Some? <==> rest.Some?
    ensures r.Some? ==> r.value == x + rest.value
  {
    if rest.Some? then Some(x + rest.value) else None
  }

  /** One step of `RLEDecoder.Decode` at index `i < end`, as written: the
      bytes one header stands for and the index after them. A header byte n
      with bit 7 set stands for 257 - n copies of the next byte (0x80 giving
      129 of them); otherwise for the next n + 1 bytes, cut short at `end`.
      `None` where the source reads outside `data`. */
  function StepAsWritten(data: seq<uint8>, i: int, end: int): (r: Option<(seq<uint8>, int)>)
    requires i < end
    ensures r.Some? ==> r.value.1 > i
  {
    if i < 0 || i >= |data| then None
    else if data[i] >= 0x80 then
      if i + 1 >= |data| then None
      else Some((Repeat(data[i + 1], 257 - data[i]), i + 2))
    else
      var c := if i + 1 + (data[i] + 1) >= end then end - (i + 1) else data[i] + 1;
      if i + 1 + c > |data| then None
      else Some((data[i + 1..i + 1 + c], i + 1 + c))
  }

  /** The step PS3.5 section G.3.2 prescribes: as above, except that the
      header byte 0x80 (-128) outputs nothing and consumes nothing else. */
  function Step(data: seq<uint8>, i: int, end: int): (r: Option<(seq<uint8>, int)>)
    requires i < end
    ensures r.Some? ==> r.value.1 > i
  {
    if 0 <= i < |data| && data[i] == 0x80 then Some(([], i + 1))
    else StepAsWritten(data, i, end)
  }

  /** What `RLEDecoder.Decode` writes from the bytes of `data` between `i`
      and `end`, as written; `None` where it reads outside `data`. */
  function UnpackAsWritten(data: seq<uint8>, i: int, end: int): (r: Option<seq<uint8>>)
    decreases end - i
  {
    if i >= end then Some([])
    else
      match StepAsWritten(data, i, end)
      case None => None
      case Some((x, j)) => Prepend(x, UnpackAsWritten(data, j, end))
  }

  /** The decoding PS3.5 section G.3.2 prescribes. */
  function Unpack(data: seq<uint8>, i: int, end: int): (r: Option<seq<uint8>>)
    decreases end - i
  {
    if i >= end then Some([])
    else
      match Step(data, i, end)
      case None => None
      case Some((x, j)) => Prepend(x, Unpack(data, j, end))
  }

  /** A segment holding a header 0x80 decodes to 129 bytes as written, where
      PackBits decodes it to nothing. */
  lemma NoOpHeaderCounterexample(data: seq<uint8>)
    requires data == [0x80, 0x00, 0x41]
    ensures UnpackAsWritten(data, 0, 3) == Some(Repeat(0x00, 129))
    ensures Unpack(data, 0, 3) == Some([0x41])
  {
    assert data[3..3] == [];
    assert StepAsWritten(data, 2, 3) == Some(([], 3));
    assert UnpackAsWritten(data, 2, 3) == Some([]);
    assert StepAsWritten(data, 0, 3) == Some((Repeat(0x00, 129), 2));
    assert UnpackAsWritten(data, 0, 3) == Some(Repeat(0x00, 129) + []);
    assert Repeat(0x00, 129) + [] == Repeat(0x00, 129);
    assert data[2..3] == [0x41];
    assert Step(data, 1, 3) == Some(([0x41], 3));
    assert Unpack(data, 1, 3) == Some([0x41] + []);
    assert [0x41] + [] == [0x41];
    assert Step(data, 0, 3) == Some(([], 1));
    assert Unpack(data, 0, 3) == Some([] + [0x41]);
    assert [] + [0x41] == [0x41];
  }

  /** The two parts of a slice cut at `n`. */
  lemma SliceParts<T>(a: seq<T>, lo: nat, hi: nat, n: nat)
    requires lo <= hi <= |a| && n <= hi - lo
    ensures a[lo..hi][..n] == a[lo..lo + n] && a[lo..hi][n..] == a[lo + n..hi]
  {
    SubSlice(a, lo, hi, 0, n);
    SubSlice(a, lo, hi, n, hi - lo);
  }

  lemma SubSlice<T>(a: seq<T>, lo: nat, hi: nat, i: nat, j: nat)
    requires lo <= hi <= |a| && i <= j <= hi - lo
    ensures a[lo..hi][i..j] == a[lo + i..lo + j]
  {
    forall k | 0 <= k < j - i
      ensures a[lo..hi][i..j][k] == a[lo + i..lo + j][k]
    {
      assert a[lo..hi][i..j][k] == a[lo..hi][i + k] == a[lo + i + k];
    }
  }

  /** Decoding a segment that starts with the bytes of a valid run yields
      what the run stands for, then the decoding of the rest. */
  lemma OneRun(r: Run, data: seq<uint8>, o: nat, end: int)
    requires ValidRun(r)
    requires o + |RunBytes(r)| <= end && end <= |data|
    requires data[o..o + |RunBytes(r)|] == RunBytes(r)
    ensures StepAsWritten(data, o, end) == Some((Expand(r), o + |RunBytes(r)|))
    ensures Step(data, o, end) == Some((Expand(r), o + |RunBytes(r)|))
  {
    var rb := RunBytes(r);
    assert data[o] == rb[0] == RunHeader(r);
    match r
    case Literal(bs) =>
      assert data[o + 1..o + |rb|] == rb[1..] == bs;
    case Replicate(n, b) =>
      assert data[o + 1] == rb[1] == b;
      if n == 1 {
        assert data[o + 1..o + 2] == rb[1..] == Repeat(b, 1);
      }
  }

  /** A pad byte 0x00 alone decodes to nothing: its literal run is cut
      short at the end of the segment. */
  lemma PadDecodesToNothing(data: seq<uint8>, o: nat, pad: nat)
    requires pad <= 1 && o + pad <= |data|
    requires pad == 1 ==> data[o] == 0
    ensures UnpackAsWritten(data, o, o + pad) == Some([])
    ensures Unpack(data, o, o + pad) == Some([])
  {
    if pad == 1 {
      assert data[o + 1..o + 1] == [];
      assert UnpackAsWritten(data, o + 1, o + 1) == Some([]);
      assert Unpack(data, o + 1, o + 1) == Some([]);
    }
  }

  /** Decoding a segment that starts with a valid run whose rest decodes
      to `out` decodes to what the run stands for followed by `out`. */
  lemma RunThen(r: Run, data: seq<uint8>, o: nat, next: nat, end: int, out: seq<uint8>)
    requires ValidRun(r) && next == o + |RunBytes(r)|
    requires next <= end <= |data|
    requires data[o..next] == RunBytes(r)
    requires UnpackAsWritten(data, next, end) == Some(out)
    requires Unpack(data, next, end) == Some(out)
    ensures UnpackAsWritten(data, o, end) == Some(Expand(r) + out)
    ensures Unpack(data, o, end) == Some(Expand(r) + out)
  {
    OneRun(r, data, o, end);
  }

  /** The encoding of runs, one run at a time. */
  lemma EncodedCons(runs: seq<Run>)
    requires ValidRuns(runs) && |runs| > 0
    ensures ValidRun(runs[0]) && ValidRuns(runs[1..])
    ensures Encoded(runs) == RunBytes(runs[0]) + Encoded(runs[1..])
  {
    forall k | 0 <= k < |runs| - 1
      ensures ValidRun(runs[1..][k])
    {
      assert runs[1..][k] == runs[k + 1];
    }
  }

  /** The pad byte closing an odd-length segment, if any. */
  function PadBytes(pad: nat): (r: seq<uint8>)
    requires pad <= 1
    ensures |r| == pad && (pad == 1 ==> r[0] == 0)
  {
    if pad == 1 then [0] else []
  }

  /** `seg` is the bytes of `runs`, one run after another, then `pad` (0 or
      1) zero bytes. */
  ghost predicate RunsIn(seg: seq<uint8>, runs: seq<Run>, pad: nat)
    decreases |runs|
  {
    if |runs| == 0 then
      pad <= 1 && seg == PadBytes(pad)
    else
      ValidRun(runs[0]) && |RunBytes(runs[0])| <= |seg| && seg[..|RunBytes(runs[0])|] == RunBytes(runs[0])
      && RunsIn(seg[|RunBytes(runs[0])|..], runs[1..], pad)
  }

  /** The encoding of valid runs, then the pad, is those runs one after
      another. */
  lemma {:induction false} EncodedRunsIn(runs: seq<Run>, pad: nat)
    requires ValidRuns(runs) && pad <= 1
    ensures RunsIn(Encoded(runs) + PadBytes(pad), runs, pad)
    decreases |runs|
  {
    if |runs| == 0 {
      assert Encoded(runs) + PadBytes(pad) == PadBytes(pad);
    } else {
      var rb, rest := RunBytes(runs[0]), Encoded(runs[1..]) + PadBytes(pad);
      EncodedCons(runs);
      assert Encoded(runs) + PadBytes(pad) == rb + rest;
      assert (rb + rest)[..|rb|] == rb && (rb + rest)[|rb|..] == rest;
      EncodedRunsIn(runs[1..], pad);
    }
  }

  /** A placed segment spans its encoding and its pad. */
  lemma SegmentBytes(data: seq<uint8>, start: nat, runs: seq<Run>, pad: nat, end: nat)
    requires SegmentAt(data, start, runs, pad, end)
    ensures start <= end <= |data| && data[start..end] == Encoded(runs) + PadBytes(pad)
  {
    var e := Encoded(runs);
    SubSlice(data, start, end, 0, |e|);
    if pad == 1 {
      assert data[start..end][|e|] == data[end - 1];
    }
    assert data[start..end] == data[start..end][..|e|] + data[start..end][|e|..];
  }

  /** Runs laid out in `data` one after another from `start`, then `pad`
      (0 or 1) zero bytes, ending at `end`. */
  ghost predicate RunsAt(data: seq<uint8>, start: nat, runs: seq<Run>, pad: nat, end: nat)
    decreases |runs|
  {
    if |runs| == 0 then
      pad <= 1 && end == start + pad && end <= |data| && (pad == 1 ==> data[start] == 0)
    else
      ValidRun(runs[0]) &&
      var next := start + |RunBytes(runs[0])|;
      next <= end <= |data| && data[start..next] == RunBytes(runs[0])
      && RunsAt(data, next, runs[1..], pad, end)
  }

  /** Laying out one run in front of laid-out runs. */
  lemma RunsAtCons(data: seq<uint8>, start: nat, runs: seq<Run>, pad: nat, end: nat)
    requires |runs| > 0 && ValidRun(runs[0]) && start + |RunBytes(runs[0])| <= end <= |data|
    requires data[start..start + |RunBytes(runs[0])|] == RunBytes(runs[0])
    requires RunsAt(data, start + |RunBytes(runs[0])|, runs[1..], pad, end)
    ensures RunsAt(data, start, runs, pad, end)
  {
  }

  /** Runs one after another in the slice `data[o..end]` are laid out in
      `data` from `o`. */
  lemma {:induction false} RunsInAt(data: seq<uint8>, o: nat, end: nat, runs: seq<Run>, pad: nat)
    requires o <= end <= |data| && RunsIn(data[o..end], runs, pad)
    ensures RunsAt(data, o, runs, pad, end)
    decreases |runs|
  {
    if |runs| == 0 {
      if pad == 1 {
        assert data[o..end][0] == data[o];
      }
    } else {
      var n := |RunBytes(runs[0])|;
      SliceParts(data, o, end, n);
      RunsInAt(data, o + n, end, runs[1..], pad);
      RunsAtCons(data, o, runs, pad, end);
    }
  }

  /** Lossless: valid runs laid out anywhere in `data` and optionally
      followed by one 0x00 pad byte decode back to what the runs stand for,
      under both decodings. */
  lemma {:induction false} Lossless(runs: seq<Run>, data: seq<uint8>, o: nat, pad: nat, end: nat)
    requires RunsAt(data, o, runs, pad, end)
    ensures UnpackAsWritten(data, o, end) == Some(Expanded(runs))
    ensures Unpack(data, o, end) == Some(Expanded(runs))
    decreases |runs|
  {
    if |runs| == 0 {
      PadDecodesToNothing(data, o, pad);
    } else {
      var next := o + |RunBytes(runs[0])|;
      Lossless(runs[1..], data, next, pad, end);
      assert Expanded(runs) == Expand(runs[0]) + Expanded(runs[1..]);
      RunThen(runs[0], data, o, next, end, Expanded(runs[1..]));
    }
  }

  // ---------------------------------------------------------------------
  // What the encoder emits
  // ---------------------------------------------------------------------

  function Min(a: int, b: int): int { if a < b then a else b }

  /** Replicate chunks of at most 128 copies, as the repeat-count loops of
      `Encode(byte)` and `Flush` write them. */
  function ReplicateChunks(p: uint8, n: nat): (runs: seq<Run>)
    ensures ValidRuns(runs)
    decreases n
  {
    if n == 0 then [] else [Replicate(Min(n, 128), p)] + ReplicateChunks(p, n - Min(n, 128))
  }

  /** One pass of the replicate loop: the next chunk is the first of the
      remaining ones, and it is written as a header byte `257 - n` and the
      repeated byte. */
  lemma ReplicateStep(p: uint8, c: int, emitted: seq<Run>, total: nat) returns (chunk: Run)
    requires c > 0 && ValidRuns(emitted) && emitted + ReplicateChunks(p, c) == ReplicateChunks(p, total)
    ensures chunk == Replicate(Min(c, 128), p) && ValidRun(chunk) && ValidRuns(emitted + [chunk])
    ensures (emitted + [chunk]) + ReplicateChunks(p, c - Min(c, 128)) == ReplicateChunks(p, total)
    ensures RunBytes(chunk) == [ToUInt8(257 - Min(c, 128)), p]
    ensures Encoded(emitted + [chunk]) == Encoded(emitted) + RunBytes(chunk)
  {
    var n := Min(c, 128);
    chunk := Replicate(n, p);
    var rest := ReplicateChunks(p, c - n);
    assert ReplicateChunks(p, c) == [chunk] + rest;
    assert (emitted + [chunk]) + rest == emitted + ([chunk] + rest);
    EncodedAppend(emitted, chunk);
  }

  /** Literal chunks of at most 128 bytes, as the buffer-draining
      loops write them. */
  function LiteralChunks(bs: seq<uint8>): (runs: seq<Run>)
    ensures ValidRuns(runs)
    decreases |bs|
  {
    if |bs| == 0 then [] else [Literal(bs[..Min(|bs|, 128)])] + LiteralChunks(bs[Min(|bs|, 128)..])
  }

  lemma EncodedConcat(a: seq<Run>, b: seq<Run>)
    requires ValidRuns(a) && ValidRuns(b)
    ensures ValidRuns(a + b)
    ensures Encoded(a + b) == Encoded(a) + Encoded(b)
    ensures Expanded(a + b) == Expanded(a) + Expanded(b)
  {
    EncodedJoin(a, b);
    ExpandedJoin(a, b);
  }

  lemma ValidConcat(a: seq<Run>, b: seq<Run>)
    requires ValidRuns(a) && ValidRuns(b)
    ensures ValidRuns(a + b)
  {
    forall k | 0 <= k < |a + b|
      ensures ValidRun((a + b)[k])
    {
      if k < |a| {
        assert (a + b)[k] == a[k];
      } else {
        assert (a + b)[k] == b[k - |a|];
      }
    }
  }

  lemma {:induction false} EncodedJoin(a: seq<Run>, b: seq<Run>)
    requires ValidRuns(a) && ValidRuns(b)
    ensures ValidRuns(a + b) && Encoded(a + b) == Encoded(a) + Encoded(b)
    decreases |b|
  {
    ValidConcat(a, b);
    if |b| == 0 {
      assert a + b == a;
    } else {
      var front, r := b[..|b| - 1], b[|b| - 1];
      assert b == front + [r];
      assert a + b == (a + front) + [r];
      ValidConcat(a, front);
      EncodedJoin(a, front);
      EncodedAppend(a + front, r);
      EncodedAppend(front, r);
    }
  }

  lemma {:induction false} ExpandedJoin(a: seq<Run>, b: seq<Run>)
    ensures Expanded(a + b) == Expanded(a) + Expanded(b)
    decreases |a|
  {
    if |a| > 0 {
      assert (a + b)[0] == a[0];
      assert (a + b)[1..] == a[1..] + b;
      ExpandedJoin(a[1..], b);
    } else {
      assert a + b == b;
    }
  }

  /** The replicate chunks stand for exactly n copies; all but the last hold
      128 copies. */
  lemma {:induction false} ReplicateChunksExpand(p: uint8, n: nat)
    ensures Expanded(ReplicateChunks(p, n)) == Repeat(p, n)
    ensures forall k :: 0 <= k < |ReplicateChunks(p, n)| ==> ReplicateChunks(p, n)[k].Replicate?
    ensures forall k :: 0 <= k < |ReplicateChunks(p, n)| - 1 ==> ReplicateChunks(p, n)[k].n == 128
    decreases n
  {
    if n > 0 {
      var m := Min(n, 128);
      ReplicateChunksExpand(p, n - m);
      assert Repeat(p, n) == Repeat(p, m) + Repeat(p, n - m);
    }
  }

  lemma {:induction false} LiteralChunksExpand(bs: seq<uint8>)
    ensures Expanded(LiteralChunks(bs)) == bs
    decreases |bs|
  {
    if |bs| > 0 {
      var m := Min(|bs|, 128);
      LiteralChunksExpand(bs[m..]);
      assert bs == bs[..m] + bs[m..];
    }
  }

  lemma LiteralChunksShort(bs: seq<uint8>)
    requires 1 <= |bs| <= 128
    ensures LiteralChunks(bs) == [Literal(bs)]
  {
    assert bs[..|bs|] == bs && bs[|bs|..] == [];
  }

  /** The runs `Encode(byte)` writes when the byte differs from the previous
      one, for the `rep` pending copies of `p`: one or two copies go out as a
      literal run, three or more as replicate runs. */
  function ChangeRuns(p: int, rep: nat): (runs: seq<Run>)
    requires rep > 0 ==> 0 <= p < 0x100
    ensures ValidRuns(runs)
  {
    if rep == 0 then []
    else if rep == 1 then [Literal([p])]
    else if rep == 2 then [Literal([p, p])]
    else ReplicateChunks(p, rep)
  }

  /** The runs `Flush` writes for the `rep` pending copies of `p`: one copy
      goes out as a literal run, two or more as replicate runs. */
  function FlushRuns(p: int, rep: nat): (runs: seq<Run>)
    requires rep > 0 ==> 0 <= p < 0x100
    ensures ValidRuns(runs)
  {
    if rep == 0 then []
    else if rep == 1 then [Literal([p])]
    else ReplicateChunks(p, rep)
  }

  /** Whatever is written for the pending copies stands for exactly them. */
  lemma PendingRunsExpand(p: int, rep: nat)
    requires rep > 0 ==> 0 <= p < 0x100
    ensures rep == 0 ==> Expanded(ChangeRuns(p, rep)) == [] && Expanded(FlushRuns(p, rep)) == []
    ensures rep > 0 ==> Expanded(ChangeRuns(p, rep)) == Repeat(p, rep)
    ensures rep > 0 ==> Expanded(FlushRuns(p, rep)) == Repeat(p, rep)
  {
    if rep > 0 {
      ReplicateChunksExpand(p, rep);
    }
    if rep == 1 {
      assert Expanded([Literal([p])]) == [p] + [];
    } else if rep == 2 {
      assert Expanded([Literal([p, p])]) == [p, p] + [];
    }
  }

  /** The header bytes of every run the encoder writes are never 0x80, so the
      two decodings agree on them. */
  lemma EmittedHeadersAvoidNoOp(p: uint8, rep: nat)
    ensures forall k :: 0 <= k < |ChangeRuns(p, rep)| ==> RunHeader(ChangeRuns(p, rep)[k]) != 0x80
    ensures forall k :: 0 <= k < |FlushRuns(p, rep)| ==> RunHeader(FlushRuns(p, rep)[k]) != 0x80
  {
  }

  /** A segment laid out in `data`: the bytes of `runs` from `start`, then
      `pad` (0 or 1) zero bytes, ending at `end`. */
  ghost predicate SegmentAt(data: seq<uint8>, start: nat, runs: seq<Run>, pad: nat, end: nat) {
    ValidRuns(runs) && pad <= 1 && end == start + |Encoded(runs)| + pad && end <= |data|
    && data[start..start + |Encoded(runs)|] == Encoded(runs)
    && (pad == 1 ==> data[end - 1] == 0)
  }

  /** A segment stays in place when the bytes from `low` on are kept. */
  lemma SegmentAtKept(data: seq<uint8>, data': seq<uint8>, low: nat, start: nat, runs: seq<Run>, pad: nat, end: nat)
    requires SegmentAt(data, start, runs, pad, end)
    requires low <= start && low <= |data| <= |data'| && data'[low..|data|] == data[low..]
    ensures SegmentAt(data', start, runs, pad, end)
  {
    forall k | low <= k < |data|
      ensures data'[k] == data[k]
    {
      assert data'[k] == data'[low..|data|][k - low];
    }
    var e := Encoded(runs);
    assert data'[start..start + |e|] == data[start..start + |e|];
  }

  /** A segment whose runs decode back to `out` under both decodings. */
  lemma SegmentAtDecodes(data: seq<uint8>, start: nat, runs: seq<Run>, pad: nat, end: nat)
    requires SegmentAt(data, start, runs, pad, end)
    ensures UnpackAsWritten(data, start, end) == Some(Expanded(runs))
    ensures Unpack(data, start, end) == Some(Expanded(runs))
  {
    SegmentBytes(data, start, runs, pad, end);
    EncodedRunsIn(runs, pad);
    RunsInAt(data, start, end, runs, pad);
    Lossless(runs, data, start, pad, end);
  }

  // ---------------------------------------------------------------------
  // The frame header (PS3.5 section G.5)
  // ---------------------------------------------------------------------

  /** A 32-bit word as `BinaryWriter` writes it, least significant byte first. */
  function LE32(v: uint32): (b: seq<uint8>)
    ensures |b| == 4
  {
    [v % 0x100, (v / 0x100) % 0x100, (v / 0x1_0000) % 0x100, v / 0x100_0000]
  }

  /** `BinaryReader.ReadUInt32` of the four bytes at `i`. */
  function ReadLE32(b: seq<uint8>, i: nat): uint32
    requires i + 4 <= |b|
  {
    b[i] as int + 0x100 * (b[i + 1] as int) + 0x1_0000 * (b[i + 2] as int) + 0x100_0000 * (b[i + 3] as int)
  }

  lemma ReadLE32Inverts(v: uint32, b: seq<uint8>, i: nat)
    requires i + 4 <= |b| && b[i..i + 4] == LE32(v)
    ensures ReadLE32(b, i) == v
  {
    var q1 := v / 0x100;
    var q2 := q1 / 0x100;
    var q3 := q2 / 0x100;
    assert b[i] == v % 0x100 && b[i + 1] == q1 % 0x100 && b[i + 2] == q2 % 0x100;
    assert v / 0x1_0000 == q2;
    assert v / 0x100_0000 == q3;
    assert b[i + 3] == q3;
  }

  function Words(ws: seq<uint32>): (b: seq<uint8>)
    ensures |b| == 4 * |ws|
  {
    if |ws| == 0 then [] else Words(ws[..|ws| - 1]) + LE32(ws[|ws| - 1])
  }

  /** The 64 header bytes: the segment count, then the fifteen offsets. */
  function HeaderBytes(count: uint32, offsets: seq<uint32>): (b: seq<uint8>)
    ensures |b| == 4 + 4 * |offsets|
  {
    LE32(count) + Words(offsets)
  }

  /** Word `k` of the header words sits at bytes `4k .. 4k + 4`. */
  lemma {:induction false} WordsAt(ws: seq<uint32>, k: nat)
    requires k < |ws|
    ensures Words(ws)[4 * k..4 * k + 4] == LE32(ws[k])
    decreases |ws|
  {
    if k < |ws| - 1 {
      WordsAt(ws[..|ws| - 1], k);
      assert ws[..|ws| - 1][k] == ws[k];
      assert Words(ws)[4 * k..4 * k + 4] == Words(ws[..|ws| - 1])[4 * k..4 * k + 4];
    }
  }

  // ---------------------------------------------------------------------
  // The encoder (RLEEncoder)
  // ---------------------------------------------------------------------

  datatype EncodeError = TooManySegments

  /** `RLEEncoder`: a memory stream that starts with a 64-byte header, the
      segment count and the fifteen offsets recorded so far, and the state of
      the run being collected: the previous byte (-1 for none), how often it
      repeated, and a literal buffer of 132 bytes. */
  class RleEncoder {
    var count: int
    const offsets: array<uint32>
    var stream: seq<uint8>
    const buffer: array<uint8>
    var prevByte: int
    var repeatCount: int
    var bufferPos: int

    /** Where each segment's runs start (`starts[0]` is the first byte after
        the header, `starts[j + 1]` is recorded as `offsets[j]`), the runs and
        pad byte count of every finished stretch, and the runs and input of
        the segment being encoded. */
    ghost var starts: seq<nat>
    ghost var closed: seq<seq<Run>>
    ghost var pads: seq<nat>
    ghost var runs: seq<Run>
    ghost var input: seq<uint8>

    /** The bytes still held back: the repeated previous byte. */
    ghost function Pending(): seq<uint8>
      reads this
    {
      if 0 <= prevByte < 0x100 && repeatCount > 0 then Repeat(prevByte, repeatCount) else []
    }

    ghost predicate Valid()
      reads this, offsets
    {
      offsets.Length == 15 && buffer.Length == 132 && offsets as object != buffer as object
      && 0 <= count <= 15 && |starts| == count + 1 && |closed| == count && |pads| == count
      && Layout(stream, starts, closed, pads, count, runs)
      && OffsetsRecorded(offsets[..], starts, count)
      && bufferPos == 0 && -1 <= prevByte < 0x100 && repeatCount >= 0
      && (repeatCount == 0 <==> prevByte == -1)
      && Expanded(runs) + Pending() == input
    }

    /** The bytes given to `Encode` for segment `j`, `0 <= j < count`. */
    ghost function SegmentInput(j: nat): seq<uint8>
      reads this
      requires j < |closed|
    {
      InputOf(closed, input, j)
    }

    constructor ()
      ensures Valid() && fresh(offsets) && fresh(buffer)
      ensures count == 0 && offsets[..] == seq(15, _ => 0)
      ensures stream == HeaderBytes(0, offsets[..])
      ensures prevByte == -1 && repeatCount == 0 && bufferPos == 0 && input == []
    {
      count := 0;
      offsets := new uint32[15](_ => 0);
      buffer := new uint8[132](_ => 0);
      stream := seq(64, _ => 0);
      prevByte, repeatCount, bufferPos := -1, 0, 0;
      starts, closed, pads, runs, input := [64], [], [], [], [];
      new;
      WriteHeader();
    }

    /** `MoveBuffer(count)`: write the first `n` buffered bytes to the stream
        and shift the rest to the front. */
    method MoveBuffer(n: int)
      requires buffer.Length == 132 && 0 <= n <= bufferPos <= buffer.Length
      modifies this`stream, this`bufferPos, buffer
      ensures stream == old(stream) + old(buffer[..n])
      ensures bufferPos == old(bufferPos) - n
      ensures buffer[..bufferPos] == old(buffer[n..bufferPos])
    {
      stream := stream + buffer[..n];
      var i, m := n, 0;
      while i < bufferPos
        invariant stream == old(stream) + old(buffer[..n]) && bufferPos == old(bufferPos)
        invariant n <= i <= bufferPos && m == i - n
        invariant buffer[..m] == old(buffer[n..i])
        invariant buffer[m..] == old(buffer[m..])
      {
        buffer[m] := buffer[i];
        i, m := i + 1, m + 1;
      }
      bufferPos := bufferPos - n;
    }

    /** `WriteHeader`: go back to the start of the stream and overwrite the
        count and the fifteen offsets. */
    method WriteHeader()
      requires offsets.Length == 15 && 64 <= |stream| && 0 <= count
      modifies this`stream
      ensures stream == HeaderBytes(ToUInt32(count), offsets[..]) + old(stream[64..])
    {
      stream := LE32(ToUInt32(count)) + stream[4..];
      for i := 0 to 15
        invariant |stream| == |old(stream)|
        invariant stream[..4 + 4 * i] == HeaderBytes(ToUInt32(count), offsets[..i])
        invariant stream[4 + 4 * i..] == old(stream[4 + 4 * i..])
      {
        var at := 4 + 4 * i;
        stream := stream[..at] + LE32(offsets[i]) + stream[at + 4..];
        assert offsets[..i + 1] == offsets[..i] + [offsets[i]];
      }
      assert offsets[..15] == offsets[..];
    }

    /** The repeat-count loop of `Encode(byte)` and `Flush`:
        write the pending copies as replicate runs of at most 128. */
    method WriteReplicates()
      requires 0 <= prevByte < 0x100 && repeatCount >= 0 && ValidRuns(runs)
      modifies this`stream, this`repeatCount, this`runs
      ensures repeatCount == 0 && ValidRuns(runs)
      ensures runs == old(runs) + ReplicateChunks(prevByte, old(repeatCount))
      ensures stream == old(stream) + Encoded(ReplicateChunks(prevByte, old(repeatCount)))
    {
      ghost var p: uint8 := prevByte;
      ghost var emitted: seq<Run> := [];
      while repeatCount > 0
        invariant 0 <= repeatCount && ValidRuns(emitted)
        invariant emitted + ReplicateChunks(p, repeatCount) == ReplicateChunks(p, old(repeatCount))
        invariant runs == old(runs) + emitted && stream == old(stream) + Encoded(emitted)
      {
        var n := Min(repeatCount, 128);
        ghost var chunk := ReplicateStep(p, repeatCount, emitted, old(repeatCount));
        Associate(old(stream), Encoded(emitted), RunBytes(chunk));
        Associate(old(runs), emitted, [chunk]);
        stream := stream + [ToUInt8(257 - n), prevByte as uint8];
        runs := runs + [chunk];
        emitted := emitted + [chunk];
        repeatCount := repeatCount - n;
      }
      assert emitted == emitted + ReplicateChunks(p, 0);
    }

    /** One pass of the literal loop: a header byte `n - 1`, then the first
        `n` buffered bytes, `n` at most 128. */
    method WriteLiteralChunk() returns (ghost chunk: Run)
      requires buffer.Length == 132 && 0 < bufferPos <= buffer.Length
      modifies this`stream, this`bufferPos, buffer
      ensures chunk == Literal(old(buffer[..Min(128, bufferPos)])) && ValidRun(chunk)
      ensures stream == old(stream) + RunBytes(chunk)
      ensures bufferPos == old(bufferPos) - |chunk.bytes|
      ensures buffer[..bufferPos] == old(buffer[|chunk.bytes|..bufferPos])
    {
      var n := Min(128, bufferPos);
      chunk := Literal(buffer[..n]);
      assert RunBytes(chunk) == [(n - 1) as uint8] + buffer[..n];
      stream := stream + [ToUInt8(n - 1)];
      MoveBuffer(n);
    }

    /** The buffer-draining loop that ends `Encode(byte)`: write the
        buffered bytes as literal runs of at most 128. */
    method WriteLiterals()
      requires buffer.Length == 132 && 0 <= bufferPos <= buffer.Length && ValidRuns(runs)
      modifies this`stream, this`bufferPos, this`runs, buffer
      ensures bufferPos == 0 && ValidRuns(runs)
      ensures runs == old(runs) + LiteralChunks(old(buffer[..bufferPos]))
      ensures stream == old(stream) + Encoded(LiteralChunks(old(buffer[..bufferPos])))
    {
      ghost var all := LiteralChunks(buffer[..bufferPos]);
      ghost var emitted: seq<Run> := [];
      ghost var held := buffer[..bufferPos];
      while bufferPos > 0
        invariant 0 <= bufferPos <= buffer.Length && ValidRuns(emitted)
        invariant held == buffer[..bufferPos] && emitted + LiteralChunks(held) == all
        invariant runs == old(runs) + emitted && stream == old(stream) + Encoded(emitted)
      {
        ghost var n := Min(128, bufferPos);
        assert held[..n] == buffer[..n];
        ghost var before := stream;
        var chunk := WriteLiteralChunk();
        LiteralStep(emitted, held, chunk, all);
        Associate(old(stream), Encoded(emitted), RunBytes(chunk));
        held := held[n..];
        Associate(old(runs), emitted, [chunk]);
        runs := runs + [chunk];
        emitted := emitted + [chunk];
      }
      assert held == [];
      assert emitted == emitted + LiteralChunks([]);
    }

    /** The writes `Encode(byte)` makes for a byte that differs from the
        previous one: the pending copies go out as `ChangeRuns`. */
    method WriteChange()
      requires buffer.Length == 132 && bufferPos == 0 && ValidRuns(runs)
      requires -1 <= prevByte < 0x100 && repeatCount >= 0 && (repeatCount == 0 <==> prevByte == -1)
      modifies this`stream, this`repeatCount, this`bufferPos, this`runs, buffer
      ensures bufferPos == 0 && ValidRuns(runs)
      ensures runs == old(runs) + ChangeRuns(old(prevByte), old(repeatCount))
      ensures stream == old(stream) + Encoded(ChangeRuns(old(prevByte), old(repeatCount)))
    {
      ghost var p, rep := prevByte, repeatCount;
      if repeatCount == 0 {
      } else if repeatCount == 1 {
        buffer[bufferPos] := prevByte;
        bufferPos := bufferPos + 1;
        assert buffer[..bufferPos] == [p as uint8];
      } else if repeatCount == 2 {
        buffer[bufferPos] := prevByte;
        bufferPos := bufferPos + 1;
        buffer[bufferPos] := prevByte;
        bufferPos := bufferPos + 1;
        assert buffer[..bufferPos] == [p as uint8, p as uint8];
      } else {
        // The literal buffer is always empty between calls, so the source's
        // literal loop ahead of the replicate runs never iterates.
        WriteReplicates();
        repeatCount := 0;
        bufferPos := 0;
      }
      ghost var stream1, runs1, lit := stream, runs, buffer[..bufferPos];
      WriteLiterals();
      if rep == 1 || rep == 2 {
        LiteralChunksShort(lit);
        assert ChangeRuns(p, rep) == [Literal(lit)];
      } else {
        assert lit == [];
        assert runs1 + [] == runs1 && stream1 + [] == stream1;
      }
    }

    /** `Encode(byte)`: a repeat of the previous byte is only counted; any
        other byte first writes out the pending copies of the previous one. */
    method Encode(b: uint8)
      requires Valid()
      modifies this`stream, this`prevByte, this`repeatCount, this`bufferPos, this`runs, this`input, buffer
      ensures Valid()
      ensures prevByte == b && input == old(input) + [b]
      ensures b == old(prevByte) ==> stream == old(stream) && runs == old(runs) && repeatCount == old(repeatCount) + 1
      ensures b != old(prevByte) ==> (repeatCount == 1
        && runs == old(runs) + ChangeRuns(old(prevByte), old(repeatCount))
        && stream == old(stream) + Encoded(ChangeRuns(old(prevByte), old(repeatCount))))
    {
      if b == prevByte {
        ghost var done := Expanded(runs);
        assert Pending() == Repeat(b, repeatCount);
        repeatCount := repeatCount + 1;
        assert Pending() == Repeat(b, repeatCount - 1) + [b];
        assert done + Pending() == (done + Repeat(b, repeatCount - 1)) + [b];
        input := input + [b];
        return;
      }
      EncodeChange(b);
    }

    /** The part of `Encode(byte)` for a byte that differs from the previous
        one. */
    method EncodeChange(b: uint8)
      requires Valid() && b != prevByte
      modifies this`stream, this`prevByte, this`repeatCount, this`bufferPos, this`runs, this`input, buffer
      ensures Valid()
      ensures prevByte == b && input == old(input) + [b] && repeatCount == 1
      ensures runs == old(runs) + ChangeRuns(old(prevByte), old(repeatCount))
      ensures stream == old(stream) + Encoded(ChangeRuns(old(prevByte), old(repeatCount)))
    {
      ghost var changed := ChangeFields(b);
      ValidAfterChange(changed);
    }

    /** The field updates of `EncodeChange`. */
    method ChangeFields(b: uint8) returns (ghost changed: seq<Run>)
      requires buffer.Length == 132 && bufferPos == 0 && ValidRuns(runs)
      requires -1 <= prevByte < 0x100 && repeatCount >= 0 && (repeatCount == 0 <==> prevByte == -1)
      modifies this`stream, this`prevByte, this`repeatCount, this`bufferPos, this`runs, this`input, buffer
      ensures changed == ChangeRuns(old(prevByte), old(repeatCount)) && ValidRuns(changed)
      ensures stream == old(stream) + Encoded(changed) && runs == old(runs) + changed
      ensures Expanded(changed) == old(Pending())
      ensures bufferPos == 0 && repeatCount == 1 && prevByte == b && input == old(input) + [b]
    {
      ghost var p, rep := prevByte, repeatCount;
      WriteChange();
      PendingRunsExpand(p, rep);
      prevByte, repeatCount, input := b, 1, input + [b];
      changed := ChangeRuns(p, rep);
    }

    /** `Valid` after `Encode(byte)` has written the runs `changed` for the
        copies held back before and started a run of the new byte. */
    twostate lemma ValidAfterChange(changed: seq<Run>)
      requires old(Valid())
      requires count == old(count) && starts == old(starts) && closed == old(closed) && pads == old(pads)
      requires offsets[..] == old(offsets[..])
      requires ValidRuns(changed) && stream == old(stream) + Encoded(changed) && runs == old(runs) + changed
      requires Expanded(changed) == old(Pending())
      requires bufferPos == 0 && repeatCount == 1 && 0 <= prevByte < 0x100 && input == old(input) + [prevByte as uint8]
      ensures Valid()
    {
      EncodedConcat(old(runs), changed);
      LayoutAppend(old(stream), starts, closed, pads, count, old(runs), changed);
      assert Pending() == [prevByte as uint8];
      assert Expanded(runs) == old(input);
    }

    /** `Valid` after `Flush` has written the runs `flushed` for the copies
        held back and forgotten the previous byte. */
    twostate lemma ValidAfterFlush(flushed: seq<Run>)
      requires old(Valid())
      requires count == old(count) && starts == old(starts) && closed == old(closed) && pads == old(pads)
      requires offsets[..] == old(offsets[..])
      requires ValidRuns(flushed) && stream == old(stream) + Encoded(flushed) && runs == old(runs) + flushed
      requires Expanded(flushed) == old(Pending())
      requires bufferPos == 0 && repeatCount == 0 && prevByte == -1 && input == old(input)
      ensures Valid() && Expanded(runs) == input
    {
      EncodedConcat(old(runs), flushed);
      LayoutAppend(old(stream), starts, closed, pads, count, old(runs), flushed);
      assert Pending() == [];
      assert Expanded(runs) + [] == input;
    }

    /** `Encode(byte[])`: every byte of `data` in turn. */
    method EncodeBytes(data: seq<uint8>)
      requires Valid()
      modifies this`stream, this`prevByte, this`repeatCount, this`bufferPos, this`runs, this`input, buffer
      ensures Valid() && input == old(input) + data
      ensures |data| > 0 ==> prevByte == data[|data| - 1]
    {
      for i := 0 to |data|
        invariant Valid() && input == old(input) + data[..i]
        invariant i > 0 ==> prevByte == data[i - 1]
      {
        Encode(data[i]);
        TakeStep(data, i);
        Associate(old(input), data[..i], [data[i]]);
      }
      assert data[..|data|] == data;
    }

    /** The writes `Flush` makes: the pending copies go out as `FlushRuns`. */
    method WritePending()
      requires buffer.Length == 132 && bufferPos == 0 && ValidRuns(runs)
      requires -1 <= prevByte < 0x100 && repeatCount >= 0 && (repeatCount == 0 <==> prevByte == -1)
      modifies this`stream, this`repeatCount, this`bufferPos, this`runs, buffer
      ensures bufferPos == 0 && repeatCount == 0 && ValidRuns(runs)
      ensures runs == old(runs) + FlushRuns(old(prevByte), old(repeatCount))
      ensures stream == old(stream) + Encoded(FlushRuns(old(prevByte), old(repeatCount)))
    {
      ghost var stream0, runs0, p, rep := stream, runs, prevByte, repeatCount;
      if repeatCount < 2 {
        while repeatCount > 0
          invariant 0 <= repeatCount <= rep < 2 && bufferPos == rep - repeatCount
          invariant bufferPos == 1 ==> buffer[0] == p
          invariant stream == stream0 && runs == runs0 && prevByte == p
        {
          buffer[bufferPos] := prevByte;
          bufferPos := bufferPos + 1;
          repeatCount := repeatCount - 1;
        }
      }
      ghost var lit := buffer[..bufferPos];
      assert rep == 0 ==> lit == [];
      assert rep == 1 ==> lit == [p as uint8];
      assert rep >= 2 ==> lit == [];
      // At most one byte is buffered here, so `MoveBuffer(_bufferPos)` moves
      // exactly the `count` bytes its header announces.
      while bufferPos > 0
        invariant 0 <= bufferPos <= |lit| <= 1
        invariant bufferPos == |lit| ==> stream == stream0 && buffer[..bufferPos] == lit
        invariant bufferPos == 0 ==> stream == stream0 + Encoded(LiteralChunks(lit))
        invariant runs == runs0 && prevByte == p && repeatCount == (if rep < 2 then 0 else rep)
      {
        var n := Min(128, bufferPos);
        LiteralChunksShort(lit);
        assert Encoded(LiteralChunks(lit)) == [ToUInt8(n - 1)] + lit + [];
        stream := stream + [ToUInt8(n - 1)];
        MoveBuffer(bufferPos);
      }
      if rep < 2 {
        if rep == 1 {
          LiteralChunksShort(lit);
        }
        runs := runs + LiteralChunks(lit);
      }
      if repeatCount >= 2 {
        WriteReplicates();
      }
      ghost var flushed := FlushRuns(p, rep);
      assert runs == runs0 + flushed && stream == stream0 + Encoded(flushed) by {
        if rep == 0 {
          assert runs0 + [] == runs0 && stream0 + [] == stream0;
        } else if rep == 1 {
          assert lit == [p as uint8];
          LiteralChunksShort(lit);
        } else {
          assert LiteralChunks(lit) == [];
        }
      }
      repeatCount := 0;
      bufferPos := 0;
    }

    /** `Flush`: write out whatever is held back (one pending copy as a
        literal run, two or more as replicate runs) and forget the previous
        byte. */
    method Flush()
      requires Valid()
      modifies this`stream, this`prevByte, this`repeatCount, this`bufferPos, this`runs, buffer
      ensures Valid() && Expanded(runs) == input
      ensures prevByte == -1 && repeatCount == 0
      ensures runs == old(runs) + FlushRuns(old(prevByte), old(repeatCount))
      ensures stream == old(stream) + Encoded(FlushRuns(old(prevByte), old(repeatCount)))
    {
      ghost var p, rep := prevByte, repeatCount;
      WritePending();
      PendingRunsExpand(p, rep);
      prevByte := -1;
      ValidAfterFlush(FlushRuns(p, rep));
    }

    /** `NextSegment`: flush, pad the stream to an even length with a zero
        byte, and record its length as the next segment offset. The offset
        table has fifteen entries: a sixteenth segment fails after `_count`
        has been incremented. */
    method NextSegment() returns (r: Result<(), EncodeError>)
      requires Valid()
      modifies this`stream, this`prevByte, this`repeatCount, this`bufferPos, this`runs, this`input
      modifies this`count, this`starts, this`closed, this`pads, buffer, offsets
      ensures count == old(count) + 1
      ensures r.Failure? <==> old(count) == 15
      ensures stream == PadEven(old(stream) + Encoded(FlushRuns(old(prevByte), old(repeatCount))))
      ensures r.Failure? ==> offsets[..] == old(offsets[..])
      ensures r.Success? ==> Valid() && offsets[..] == old(offsets[..])[old(count) := ToUInt32(|stream|)]
      ensures r.Success? ==> starts == old(starts) + [|stream|] && input == [] && runs == []
      ensures r.Success? ==> closed == old(closed) + [old(runs) + FlushRuns(old(prevByte), old(repeatCount))]
      ensures r.Success? ==> Expanded(closed[old(count)]) == old(input)
      ensures r.Success? ==> prevByte == -1 && repeatCount == 0
    {
      Flush();
      r := CloseSegment();
    }

    /** The rest of `NextSegment` once the pending bytes are flushed. */
    method CloseSegment() returns (r: Result<(), EncodeError>)
      requires Valid() && prevByte == -1 && repeatCount == 0 && Expanded(runs) == input
      modifies this`stream, this`runs, this`input, this`count, this`starts, this`closed, this`pads, offsets
      ensures count == old(count) + 1
      ensures r.Failure? <==> old(count) == 15
      ensures stream == PadEven(old(stream))
      ensures r.Failure? ==> offsets[..] == old(offsets[..])
      ensures r.Success? ==> Valid() && offsets[..] == old(offsets[..])[old(count) := ToUInt32(|stream|)]
      ensures r.Success? ==> starts == old(starts) + [|stream|] && input == [] && runs == []
      ensures r.Success? ==> closed == old(closed) + [old(runs)] && Expanded(closed[old(count)]) == old(input)
    {
      ghost var pad;
      r, pad := CloseFields();
      if r.Success? {
        ValidAfterClose(pad);
      }
    }

    /** The field updates of `CloseSegment`: pad to even length, then
        `_offsets[_count++] = (uint)_stream.Length`. */
    method CloseFields() returns (r: Result<(), EncodeError>, ghost pad: nat)
      requires offsets.Length == 15 && 0 <= count <= 15
      modifies this`stream, this`runs, this`input, this`count, this`starts, this`closed, this`pads, offsets
      ensures count == old(count) + 1 && (r.Failure? <==> old(count) == 15)
      ensures (pad == 0 && stream == old(stream)) || (pad == 1 && stream == old(stream) + [0])
      ensures stream == PadEven(old(stream)) && |stream| % 2 == 0
      ensures r.Failure? ==> offsets[..] == old(offsets[..])
      ensures r.Success? ==> offsets[..] == old(offsets[..])[old(count) := ToUInt32(|stream|)]
      ensures r.Success? ==> starts == old(starts) + [|stream|] && closed == old(closed) + [old(runs)] && pads == old(pads) + [pad]
      ensures r.Success? ==> runs == [] && input == []
    {
      pad := 0;
      if |stream| % 2 == 1 {
        stream := stream + [0];
        pad := 1;
      }
      var index := count;
      count := count + 1;
      if index >= 15 {
        return Failure(TooManySegments), pad;
      }
      RecordOffset(index, ToUInt32(|stream|));
      starts, closed, pads, runs, input := starts + [|stream|], closed + [runs], pads + [pad], [], [];
      r := Success(());
    }

    /** `_offsets[index] = value`. */
    method RecordOffset(index: nat, value: uint32)
      requires index < offsets.Length
      modifies offsets
      ensures offsets[..] == old(offsets[..])[index := value]
    {
      offsets[index] := value;
    }

    /** `Valid` after `NextSegment` has closed the current segment, padded
        the stream to `stream` and recorded its length as the next offset. */
    twostate lemma ValidAfterClose(pad: nat)
      requires old(Valid()) && 1 <= count <= 15 && count == old(count) + 1
      requires (pad == 0 && stream == old(stream)) || (pad == 1 && stream == old(stream) + [0])
      requires |stream| % 2 == 0 && offsets[..] == old(offsets[..])[old(count) := ToUInt32(|stream|)]
      requires starts == old(starts) + [|stream|] && closed == old(closed) + [old(runs)] && pads == old(pads) + [pad]
      requires runs == [] && input == [] && bufferPos == 0 && repeatCount == 0 && prevByte == -1
      ensures Valid()
    {
      LayoutClose(old(stream), stream, old(starts), old(closed), old(pads), old(count), old(runs), pad);
      OffsetsRecord(old(offsets[..]), old(starts), old(count), |stream|);
      assert Pending() == [];
    }

    /** `GetBuffer`: flush, rewrite the header with the segment count and
        offsets, and hand out the whole stream. Every segment then decodes
        back to the bytes given to `Encode` for it. */
    method GetBuffer() returns (r: seq<uint8>)
      requires Valid()
      modifies this`stream, this`prevByte, this`repeatCount, this`bufferPos, this`runs, buffer
      ensures Valid() && Expanded(runs) == input && r == stream
      ensures r == HeaderBytes(ToUInt32(count), offsets[..]) + (old(stream) + Encoded(FlushRuns(old(prevByte), old(repeatCount))))[64..]
      ensures |r| < TWO_32 ==> ReadLE32(r, 0) == count
      ensures |r| < TWO_32 ==> forall j :: 0 <= j < count ==> SegmentDecodes(r, j, count, SegmentInput(j))
    {
      Flush();
      ghost var flushedStream := stream;
      WriteHeader();
      r := stream;
      LayoutHeaderKept(flushedStream, stream, starts, closed, pads, count, runs);
      if |r| < TWO_32 {
        LayoutDecodes(r, starts, closed, pads, count, runs, offsets[..]);
        forall j | 0 <= j < count
          ensures SegmentDecodes(r, j, count, SegmentInput(j))
        {
          assert SegmentDecodes(r, j, count, SegmentOut(closed, runs, j));
        }
      }
    }
  }

  /** The runs emitted so far plus the chunks of the held bytes stay the
      same when the first chunk moves from the held bytes to the emitted runs. */
  lemma Associate<T>(a: seq<T>, b: seq<T>, c: seq<T>)
    ensures (a + b) + c == a + (b + c)
  {
  }

  lemma TakeStep<T>(s: seq<T>, i: nat)
    requires i < |s|
    ensures s[..i + 1] == s[..i] + [s[i]]
  {
  }

  lemma SliceAppend<T>(a: seq<T>, b: seq<T>, i: nat)
    requires i <= |a|
    ensures (a + b)[i..] == a[i..] + b
  {
  }

  lemma LiteralStep(emitted: seq<Run>, held: seq<uint8>, chunk: Run, all: seq<Run>)
    requires ValidRuns(emitted) && |held| > 0 && chunk == Literal(held[..Min(128, |held|)])
    requires emitted + LiteralChunks(held) == all
    ensures ValidRuns(emitted + [chunk]) && (emitted + [chunk]) + LiteralChunks(held[|chunk.bytes|..]) == all
    ensures Encoded(emitted + [chunk]) == Encoded(emitted) + RunBytes(chunk)
  {
    var rest := LiteralChunks(held[|chunk.bytes|..]);
    assert LiteralChunks(held) == [chunk] + rest;
    assert (emitted + [chunk]) + rest == emitted + ([chunk] + rest);
    EncodedAppend(emitted, chunk);
  }

  /** The stream after the header: the finished segments, each at its
      start, then the runs of the current segment up to the end. */
  ghost predicate Layout(stream: seq<uint8>, starts: seq<nat>, closed: seq<seq<Run>>, pads: seq<nat>, count: nat, runs: seq<Run>) {
    |starts| == count + 1 && |closed| == count && |pads| == count
    && starts[0] == 64 && 64 <= |stream|
    && (forall j :: 0 <= j < count ==> 64 <= starts[j] && SegmentAt(stream, starts[j], closed[j], pads[j], starts[j + 1]))
    && 64 <= starts[count] <= |stream| && ValidRuns(runs) && stream[starts[count]..] == Encoded(runs)
  }

  /** Appending the bytes of more runs extends the current segment. */
  lemma LayoutAppend(stream: seq<uint8>, starts: seq<nat>, closed: seq<seq<Run>>, pads: seq<nat>, count: nat, runs: seq<Run>, more: seq<Run>)
    requires Layout(stream, starts, closed, pads, count, runs) && ValidRuns(more)
    ensures Layout(stream + Encoded(more), starts, closed, pads, count, runs + more)
  {
    var s1 := stream + Encoded(more);
    EncodedConcat(runs, more);
    SliceAppend(stream, Encoded(more), starts[count]);
    assert s1[..|stream|] == stream;
    SegmentsKept(stream, s1, starts, closed, pads, count);
  }

  /** Finished segments stay in place while the stream only grows. */
  lemma SegmentsKept(s0: seq<uint8>, s1: seq<uint8>, starts: seq<nat>, closed: seq<seq<Run>>, pads: seq<nat>, count: nat)
    requires |starts| == count + 1 && |closed| == count && |pads| == count
    requires forall j :: 0 <= j < count ==> 64 <= starts[j] && SegmentAt(s0, starts[j], closed[j], pads[j], starts[j + 1])
    requires |s0| <= |s1| && s1[..|s0|] == s0
    ensures forall j :: 0 <= j < count ==> 64 <= starts[j] && SegmentAt(s1, starts[j], closed[j], pads[j], starts[j + 1])
  {
    forall j | 0 <= j < count
      ensures 64 <= starts[j] && SegmentAt(s1, starts[j], closed[j], pads[j], starts[j + 1])
    {
      assert SegmentAt(s0, starts[j], closed[j], pads[j], starts[j + 1]);
      assert s1[starts[j]..|s0|] == s0[starts[j]..];
      SegmentAtKept(s0, s1, starts[j], starts[j], closed[j], pads[j], starts[j + 1]);
    }
  }

  /** Offset `j` of the table records where segment `j` starts, at an even
      position. */
  predicate OffsetsRecorded(offsets: seq<uint32>, starts: seq<nat>, count: nat)
    requires |offsets| == 15 && |starts| == count + 1 && count <= 15
  {
    forall j :: 0 <= j < count ==> OffsetAt(offsets, starts, j)
  }

  /** Offset `j` records where segment `j` starts, `starts[j + 1]`. */
  predicate OffsetAt(offsets: seq<uint32>, starts: seq<nat>, j: nat) {
    j < |offsets| && j + 1 < |starts| && offsets[j] == ToUInt32(starts[j + 1]) && starts[j + 1] % 2 == 0
  }

  /** Recording the start of one more segment. */
  lemma OffsetsRecord(offsets: seq<uint32>, starts: seq<nat>, count: nat, next: nat)
    requires |offsets| == 15 && |starts| == count + 1 && count < 15
    requires OffsetsRecorded(offsets, starts, count) && next % 2 == 0
    ensures OffsetsRecorded(offsets[count := ToUInt32(next)], starts + [next], count + 1)
  {
    var o, st := offsets[count := ToUInt32(next)], starts + [next];
    forall j | 0 <= j < count + 1
      ensures OffsetAt(o, st, j)
    {
      if j < count {
        assert OffsetAt(offsets, starts, j);
        assert o[j] == offsets[j] && st[j + 1] == starts[j + 1];
      } else {
        assert o[j] == ToUInt32(next) && st[j + 1] == next;
      }
    }
  }

  /** The stream padded with one zero byte to an even length. */
  function PadEven(s: seq<uint8>): (r: seq<uint8>)
    ensures |r| % 2 == 0 && |s| <= |r| <= |s| + 1 && r[..|s|] == s
    ensures |r| > |s| ==> r[|s|] == 0
  {
    if |s| % 2 == 1 then s + [0] else s
  }

  /** Closing the current segment: its runs, then the pad byte, end where the
      next segment starts. */
  lemma LayoutClose(s0: seq<uint8>, s1: seq<uint8>, starts: seq<nat>, closed: seq<seq<Run>>, pads: seq<nat>, count: nat, runs: seq<Run>, pad: nat)
    requires Layout(s0, starts, closed, pads, count, runs)
    requires (pad == 0 && s1 == s0) || (pad == 1 && s1 == s0 + [0])
    ensures Layout(s1, starts + [|s1|], closed + [runs], pads + [pad], count + 1, [])
  {
    var st, cl, ps := starts + [|s1|], closed + [runs], pads + [pad];
    assert s1[..|s0|] == s0;
    SegmentsKept(s0, s1, starts, closed, pads, count);
    var e := Encoded(runs);
    assert |s0| == starts[count] + |e|;
    assert s1[starts[count]..starts[count] + |e|] == s0[starts[count]..];
    assert SegmentAt(s1, starts[count], runs, pad, |s1|);
    forall j | 0 <= j < count + 1
      ensures 64 <= st[j] && SegmentAt(s1, st[j], cl[j], ps[j], st[j + 1])
    {
      if j < count {
        assert st[j] == starts[j] && cl[j] == closed[j] && ps[j] == pads[j] && st[j + 1] == starts[j + 1];
      }
    }
    assert s1[st[count + 1]..] == [];
  }

  /** Rewriting the 64 header bytes keeps every segment in place. */
  lemma LayoutHeaderKept(s0: seq<uint8>, s1: seq<uint8>, starts: seq<nat>, closed: seq<seq<Run>>, pads: seq<nat>, count: nat, runs: seq<Run>)
    requires Layout(s0, starts, closed, pads, count, runs)
    requires |s1| == |s0| && s1[64..] == s0[64..]
    ensures Layout(s1, starts, closed, pads, count, runs)
  {
    forall j | 0 <= j < count
      ensures SegmentAt(s1, starts[j], closed[j], pads[j], starts[j + 1])
    {
      SegmentAtKept(s0, s1, 64, starts[j], closed[j], pads[j], starts[j + 1]);
    }
    assert s1[starts[count]..] == s0[64..][starts[count] - 64..];
  }

  /** Segment `j` of the `count` segments of a compressed frame `r`, found
      through the offset table the way `RLEDecoder` finds it, decodes to
      `out` under both decodings. */
  ghost predicate SegmentDecodes(r: seq<uint8>, j: nat, count: nat, out: seq<uint8>)
    requires j < count <= 15 && 64 <= |r|
  {
    var start := ReadLE32(r, 4 + 4 * j);
    var end := if j + 1 < count then ReadLE32(r, 8 + 4 * j) else |r|;
    start <= end <= |r| && UnpackAsWritten(r, start, end) == Some(out) && Unpack(r, start, end) == Some(out)
  }

  /** What segment `j` stands for: a finished stretch after the first, or
      the current runs for the last. */
  function SegmentOut(closed: seq<seq<Run>>, runs: seq<Run>, j: nat): seq<uint8> {
    if j + 1 < |closed| then Expanded(closed[j + 1]) else Expanded(runs)
  }

  /** Word `k` of a header reads back as offset `k`. */
  lemma HeaderWord(r: seq<uint8>, count: uint32, offsets: seq<uint32>, k: nat)
    requires |offsets| == 15 && 64 <= |r| && r[..64] == HeaderBytes(count, offsets) && k < 15
    ensures ReadLE32(r, 0) == count
    ensures ReadLE32(r, 4 + 4 * k) == offsets[k]
  {
    var h, w := LE32(count), Words(offsets);
    assert |h| == 4 && |w| == 60;
    SubSlice(r, 0, 64, 0, 4);
    assert r[..64][0..4] == (h + w)[0..4] == h;
    assert r[0..4] == h;
    ReadLE32Inverts(count, r, 0);
    SubSlice(r, 0, 64, 4 + 4 * k, 8 + 4 * k);
    ConcatSlice(h, w, 4 * k, 4 * k + 4);
    WordsAt(offsets, k);
    assert r[4 + 4 * k..8 + 4 * k] == LE32(offsets[k]);
    ReadLE32Inverts(offsets[k], r, 4 + 4 * k);
  }

  /** A slice past the first part of a concatenation is a slice of the second. */
  lemma ConcatSlice<T>(a: seq<T>, b: seq<T>, i: nat, j: nat)
    requires i <= j <= |b|
    ensures (a + b)[|a| + i..|a| + j] == b[i..j]
  {
    assert forall k :: 0 <= k < j - i ==> (a + b)[|a| + i..|a| + j][k] == b[i..j][k];
  }

  /** A stream laid out segment by segment under a header recording its
      count and offsets decodes, segment by segment, to what each stands for. */
  lemma LayoutDecodes(r: seq<uint8>, starts: seq<nat>, closed: seq<seq<Run>>, pads: seq<nat>, count: nat, runs: seq<Run>, offsets: seq<uint32>)
    requires Layout(r, starts, closed, pads, count, runs) && count <= 15 && |offsets| == 15 && |r| < TWO_32
    requires r[..64] == HeaderBytes(ToUInt32(count), offsets)
    requires OffsetsRecorded(offsets, starts, count)
    ensures ReadLE32(r, 0) == count
    ensures forall j :: 0 <= j < count ==> SegmentDecodes(r, j, count, SegmentOut(closed, runs, j))
  {
    HeaderWord(r, ToUInt32(count), offsets, 0);
    forall k | 0 <= k < 15
      ensures ReadLE32(r, 4 + 4 * k) == offsets[k]
    {
      HeaderWord(r, ToUInt32(count), offsets, k);
    }
    forall j | 0 <= j < count
      ensures SegmentDecodes(r, j, count, SegmentOut(closed, runs, j))
    {
      OneSegmentDecodes(r, starts, closed, pads, count, runs, offsets, j);
    }
  }

  lemma OneSegmentDecodes(r: seq<uint8>, starts: seq<nat>, closed: seq<seq<Run>>, pads: seq<nat>, count: nat, runs: seq<Run>, offsets: seq<uint32>, j: nat)
    requires Layout(r, starts, closed, pads, count, runs) && count <= 15 && |offsets| == 15 && |r| < TWO_32
    requires forall k :: 0 <= k < 15 ==> ReadLE32(r, 4 + 4 * k) == offsets[k]
    requires OffsetsRecorded(offsets, starts, count) && j < count
    ensures SegmentDecodes(r, j, count, SegmentOut(closed, runs, j))
  {
    assert ReadLE32(r, 4 + 4 * j) == offsets[j] && OffsetAt(offsets, starts, j);
    if j + 1 < count {
      assert ReadLE32(r, 4 + 4 * (j + 1)) == offsets[j + 1] && OffsetAt(offsets, starts, j + 1);
      InnerSegmentDecodes(r, starts[j + 1], closed[j + 1], pads[j + 1], starts[j + 2], j, count);
    } else {
      LastSegmentDecodes(r, starts[count], runs, j, count);
    }
  }

  lemma InnerSegmentDecodes(r: seq<uint8>, start: nat, runs: seq<Run>, pad: nat, end: nat, j: nat, count: nat)
    requires j + 1 < count <= 15 && 64 <= |r| && |r| < TWO_32
    requires SegmentAt(r, start, runs, pad, end)
    requires ReadLE32(r, 4 + 4 * j) == ToUInt32(start) && ReadLE32(r, 8 + 4 * j) == ToUInt32(end)
    ensures SegmentDecodes(r, j, count, Expanded(runs))
  {
    SegmentAtDecodes(r, start, runs, pad, end);
  }

  lemma LastSegmentDecodes(r: seq<uint8>, start: nat, runs: seq<Run>, j: nat, count: nat)
    requires j + 1 == count <= 15 && 64 <= |r| && |r| < TWO_32 && start <= |r|
    requires ValidRuns(runs) && r[start..] == Encoded(runs)
    requires ReadLE32(r, 4 + 4 * j) == ToUInt32(start)
    ensures SegmentDecodes(r, j, count, Expanded(runs))
  {
    var e := Encoded(runs);
    assert r[start..start + |e|] == e;
    SegmentAtDecodes(r, start, runs, 0, |r|);
  }

  // ---------------------------------------------------------------------
  // The decoder (RLEDecoder)
  // ---------------------------------------------------------------------

  /** `RLEDecoder`: the segment count and the fifteen offsets read from the
      header, as `(int)ReadUInt32()` and `ReadInt32()`, and the whole data. */
  datatype RleDecoder = RleDecoder(count: int32, offsets: seq<int32>, data: seq<uint8>)

  /** The exceptions of the decoding side: `ReadUInt32` past the end of a
      short header, a segment number or offset index out of range, a read
      outside the compressed data or a write past the end of the segment
      buffer, and the frame decoder's count check. */
  datatype DecodeError = TruncatedHeader | SegmentOutOfRange | MalformedSegment | UnexpectedSegmentCount

  /** The `RLEDecoder` constructor: `None` where `BinaryReader` runs out of
      bytes before the 64 header bytes are read. */
  function ReadHeader(data: seq<uint8>): (r: Option<RleDecoder>)
    ensures r.Some? <==> |data| >= 64
    ensures r.Some? ==> r.value.data == data && |r.value.offsets| == 15
  {
    if |data| < 64 then None
    else Some(RleDecoder(UInt32ToInt32(ReadLE32(data, 0)),
                         seq(15, k requires 0 <= k < 15 => UInt32ToInt32(ReadLE32(data, 4 + 4 * k))),
                         data))
  }

  /** The header `RLEEncoder.WriteHeader` writes reads back as the count and
      offsets written, as long as they fit a signed 32-bit word. */
  lemma ReadHeaderBytes(data: seq<uint8>, count: uint32, offsets: seq<uint32>)
    requires |offsets| == 15 && 64 <= |data| && data[..64] == HeaderBytes(count, offsets)
    requires count < TWO_31 && forall k :: 0 <= k < 15 ==> offsets[k] < TWO_31
    ensures ReadHeader(data) == Some(RleDecoder(count, offsets, data))
  {
    HeaderWord(data, count, offsets, 0);
    forall k | 0 <= k < 15
      ensures ReadHeader(data).value.offsets[k] == offsets[k]
    {
      HeaderWord(data, count, offsets, k);
    }
    assert ReadHeader(data).value.offsets == offsets;
  }

  /** Where segment `s` starts and ends: `GetSegmentOffset` and
      `GetSegmentLength`, the end being `offset + length` in 32-bit
      arithmetic. `None` where the source indexes past the fifteen offsets. */
  function SegmentBounds(d: RleDecoder, s: int): (r: Option<(int32, int32)>)
    requires |d.offsets| == 15 && 0 <= s < d.count
  {
    if s >= 15 then None
    else
      var offset := d.offsets[s];
      if s < d.count - 1 then
        if s + 1 >= 15 then None
        else Some((offset, ToInt32(offset + ToInt32(d.offsets[s + 1] - offset))))
      else Some((offset, ToInt32(offset + ToInt32(|d.data| - offset))))
  }

  /** The next offset, or the end of the data for the last segment, is where
      a segment ends: the 32-bit wrap-around of `length` undoes itself. */
  lemma SegmentBoundsEnd(d: RleDecoder, s: int)
    requires |d.offsets| == 15 && 0 <= s < d.count && |d.data| < TWO_31
    ensures SegmentBounds(d, s).Some? <==> s < 15 && (s < d.count - 1 ==> s + 1 < 15)
    ensures SegmentBounds(d, s).Some? ==>
      SegmentBounds(d, s).value == (d.offsets[s], if s < d.count - 1 then d.offsets[s + 1] else |d.data|)
  {
    if s < 15 {
      var offset := d.offsets[s];
      var next: int := if s < d.count - 1 && s + 1 < 15 then d.offsets[s + 1] else |d.data|;
      var len := ToInt32(next - offset);
      WrapAddBack(offset, next, len);
    }
  }

  /** `offset + (int)(next - offset)` wraps back to `next`. */
  lemma WrapAddBack(offset: int32, next: int32, len: int32)
    requires len == ToInt32(next - offset)
    ensures ToInt32(offset + len) == next
  {
    var k := (len - (next - offset)) / TWO_32;
    assert len - (next - offset) == k * TWO_32;
    assert offset + len == next + k * TWO_32;
    ModWrap(next, k);
  }

  lemma ModWrap(x: int32, k: int)
    ensures ToInt32(x + k * TWO_32) == x
  {
    assert (x + k * TWO_32) % TWO_32 == x % TWO_32;
  }

  /** What `DecodeSegment(s, buffer)` writes to the front of `buffer`, or
      the exception it throws: a segment number outside `0 .. count - 1`,
      an offset index past the table, or a read outside the data. */
  function SegmentOutput(d: RleDecoder, s: int): (r: Result<seq<uint8>, DecodeError>)
    requires |d.offsets| == 15
    ensures s < 0 || s >= d.count ==> r == Failure(SegmentOutOfRange)
    ensures r.Success? ==> 0 <= s < d.count && s < 15
    ensures r != Failure(TruncatedHeader) && r != Failure(UnexpectedSegmentCount)
  {
    if s < 0 || s >= d.count then Failure(SegmentOutOfRange)
    else match SegmentBounds(d, s)
      case None => Failure(SegmentOutOfRange)
      case Some((offset, end)) =>
        match UnpackAsWritten(d.data, offset, end)
        case None => Failure(MalformedSegment)
        case Some(out) => Success(out)
  }

  /** The segments of a buffer `GetBuffer` returned decode, through the
      header the decoder reads, to the bytes given to the encoder. */
  lemma SegmentOutputDecodes(r: seq<uint8>, j: nat, count: nat, out: seq<uint8>)
    requires 64 <= |r| < TWO_31 && ReadLE32(r, 0) == count
    requires j < count <= 15 && SegmentDecodes(r, j, count, out)
    ensures ReadHeader(r).Some? && ReadHeader(r).value.count == count
    ensures SegmentOutput(ReadHeader(r).value, j) == Success(out)
  {
    var d := ReadHeader(r).value;
    assert d.offsets[j] == ReadLE32(r, 4 + 4 * j);
    if j + 1 < count {
      assert d.offsets[j + 1] == ReadLE32(r, 4 + 4 * (j + 1));
    }
    SegmentBoundsEnd(d, j);
  }

  /** `DecodeSegment(segment, buffer)`: the segment's bytes written to the
      front of `buffer`, or the exception. */
  method DecodeSegment(d: RleDecoder, s: int, buffer: array<uint8>) returns (r: Result<(), DecodeError>)
    requires |d.offsets| == 15
    modifies buffer
    ensures r.Success? <==> SegmentOutput(d, s).Success? && |SegmentOutput(d, s).value| <= buffer.Length
    ensures r == Failure(SegmentOutOfRange) <==> SegmentOutput(d, s) == Failure(SegmentOutOfRange)
    ensures r.Success? ==> buffer[..] == SegmentOutput(d, s).value + old(buffer[|SegmentOutput(d, s).value|..])
    ensures r == Failure(SegmentOutOfRange) ==> buffer[..] == old(buffer[..])
    ensures r.Failure? ==> r.error == SegmentOutOfRange || r.error == MalformedSegment
  {
    if s < 0 || s >= d.count || s >= 15 {
      return Failure(SegmentOutOfRange);
    }
    var offset := d.offsets[s];
    var length: int32;
    if s < d.count - 1 {
      if s + 1 >= 15 {
        return Failure(SegmentOutOfRange);
      }
      length := ToInt32(d.offsets[s + 1] - offset);
    } else {
      length := ToInt32(|d.data| - offset);
    }
    assert SegmentBounds(d, s) == Some((offset, ToInt32(offset + length)));
    SegmentOutputAt(d, s, offset, ToInt32(offset + length));
    var ok := DecodeRuns(buffer, d.data, offset, length);
    if !ok {
      return Failure(MalformedSegment);
    }
    return Success(());
  }

  lemma SegmentOutputAt(d: RleDecoder, s: int, offset: int32, end: int32)
    requires |d.offsets| == 15 && 0 <= s < d.count && SegmentBounds(d, s) == Some((offset, end))
    ensures UnpackAsWritten(d.data, offset, end).None? ==> SegmentOutput(d, s) == Failure(MalformedSegment)
    ensures UnpackAsWritten(d.data, offset, end).Some? ==> SegmentOutput(d, s) == Success(UnpackAsWritten(d.data, offset, end).value)
  {
  }

  lemma PrependTwice(a: seq<uint8>, b: seq<uint8>, rest: Option<seq<uint8>>)
    ensures Prepend(a, Prepend(b, rest)) == Prepend(a + b, rest)
  {
    if rest.Some? {
      assert a + (b + rest.value) == (a + b) + rest.value;
    }
  }

  /** `Buffer.BlockCopy(src, si, dst, di, c)` for `c >= 0`: `false`, and
      nothing copied, where either range runs past its array. */
  method BlockCopy(src: seq<uint8>, si: nat, dst: array<uint8>, di: nat, c: nat) returns (ok: bool)
    modifies dst
    ensures ok <==> si + c <= |src| && di + c <= dst.Length
    ensures ok ==> dst[..] == old(dst[..di]) + src[si..si + c] + old(dst[di + c..])
    ensures !ok ==> dst[..] == old(dst[..])
  {
    if si + c > |src| || di + c > dst.Length {
      return false;
    }
    forall k | 0 <= k < c {
      dst[di + k] := src[si + k];
    }
    assert dst[..] == dst[..di] + dst[di..di + c] + dst[di + c..];
    return true;
  }

  /** The loop of `Decode` that copies one byte `c` times: `false`
      where it runs past the end of `buffer`, after filling it to the end. */
  method Fill(buffer: array<uint8>, pos: nat, b: uint8, c: nat) returns (ok: bool)
    requires pos <= buffer.Length
    modifies buffer
    ensures ok <==> pos + c <= buffer.Length
    ensures ok ==> buffer[..] == old(buffer[..pos]) + Repeat(b, c) + old(buffer[pos + c..])
  {
    var p, n := pos, c;
    while n > 0
      invariant pos <= p <= buffer.Length && p - pos + n == c
      invariant buffer[..pos] == old(buffer[..pos])
      invariant forall k :: pos <= k < p ==> buffer[k] == b
      invariant buffer[p..] == old(buffer[p..])
    {
      if p >= buffer.Length {
        return false;
      }
      buffer[p] := b;
      p, n := p + 1, n - 1;
    }
    assert buffer[pos..p] == Repeat(b, c);
    assert buffer[..] == buffer[..pos] + buffer[pos..p] + buffer[p..];
    return true;
  }

  /** `RLEDecoder.Decode(buffer, rleData, offset, count)`: decode the runs
      from `offset` up to `offset + count` into the front of `buffer`.
      `false` where the source throws: a read outside `rleData`, or a write
      past the end of `buffer` (the bytes written up to then stay written). */
  method DecodeRuns(buffer: array<uint8>, rleData: seq<uint8>, offset: int32, count: int32) returns (ok: bool)
    modifies buffer
    ensures ok <==> Fits(UnpackAsWritten(rleData, offset, ToInt32(offset + count)), buffer.Length)
    ensures ok ==> buffer[..] == UnpackAsWritten(rleData, offset, ToInt32(offset + count)).value
                                 + old(buffer[|UnpackAsWritten(rleData, offset, ToInt32(offset + count)).value|..])
  {
    var pos := 0;
    var end := ToInt32(offset + count);
    var i: int := offset;
    ghost var all := UnpackAsWritten(rleData, offset, end);
    assert all == Prepend(buffer[..0], all) by {
      if all.Some? {
        assert buffer[..0] + all.value == all.value;
      }
    }
    while i < end
      invariant 0 <= pos <= buffer.Length
      invariant all == Prepend(buffer[..pos], UnpackAsWritten(rleData, i, end))
      invariant buffer[pos..] == old(buffer[pos..])
      decreases end - i
    {
      ghost var i0, done := i, buffer[..pos];
      var next, pos';
      ok, next, pos' := DecodeRun(buffer, rleData, i, end, pos);
      if !ok {
        DecodeRunFails(all, done, rleData, i0, end, buffer.Length);
        return false;
      }
      ghost var x := buffer[pos..pos'];
      UnpackStep(rleData, i0, end, x, next);
      PrependTwice(done, x, UnpackAsWritten(rleData, next, end));
      assert buffer[..pos'] == done + x;
      i, pos := next, pos';
    }
    assert UnpackAsWritten(rleData, i, end) == Some([]);
    assert buffer[..] == buffer[..pos] + buffer[pos..];
    return true;
  }

  /** A failed step leaves nothing that fits. */
  lemma DecodeRunFails(all: Option<seq<uint8>>, done: seq<uint8>, data: seq<uint8>, i: int, end: int, length: int)
    requires i < end && |done| <= length
    requires all == Prepend(done, UnpackAsWritten(data, i, end))
    requires StepAsWritten(data, i, end).None? || |done| + |StepAsWritten(data, i, end).value.0| > length
    ensures !Fits(all, length)
  {
    match StepAsWritten(data, i, end)
    case None =>
    case Some((x, next)) =>
      UnpackStep(data, i, end, x, next);
      PrependTwice(done, x, UnpackAsWritten(data, next, end));
  }

  /** One pass of the loop of `Decode`: the run whose header is at `i`,
      written from `pos`. */
  method DecodeRun(buffer: array<uint8>, rleData: seq<uint8>, i: int, end: int, pos: nat) returns (ok: bool, next: int, pos': nat)
    requires i < end && pos <= buffer.Length
    modifies buffer
    ensures ok ==> pos <= pos' <= buffer.Length && StepAsWritten(rleData, i, end) == Some((buffer[pos..pos'], next))
    ensures ok ==> buffer[..pos] == old(buffer[..pos]) && buffer[pos'..] == old(buffer[pos'..])
    ensures !ok ==> StepAsWritten(rleData, i, end).None? || pos + |StepAsWritten(rleData, i, end).value.0| > buffer.Length
  {
    if i < 0 || i >= |rleData| {
      return false, i, pos;
    }
    var n := rleData[i];
    next := i + 1;
    if n >= 0x80 {
      var c := 257 - n;
      if next >= |rleData| {
        return false, next, pos;
      }
      var b := rleData[next];
      next := next + 1;
      ReplicateStepAt(rleData, i, end);
      ok := Fill(buffer, pos, b, c);
      pos' := pos + c;
      if ok {
        assert buffer[pos..pos'] == Repeat(b, c);
      }
    } else {
      var c := n + 1;
      if next + c >= end {
        c := end - next;
      }
      LiteralStepAt(rleData, i, end, c);
      ok := BlockCopy(rleData, next, buffer, pos, c);
      pos' := pos + c;
      if ok {
        assert buffer[pos..pos'] == rleData[next..next + c];
      }
      next := next + c;
    }
  }

  lemma ReplicateStepAt(data: seq<uint8>, i: int, end: int)
    requires 0 <= i && i + 1 < |data| && i < end && data[i] >= 0x80
    ensures StepAsWritten(data, i, end) == Some((Repeat(data[i + 1], 257 - data[i]), i + 2))
  {
  }

  lemma LiteralStepAt(data: seq<uint8>, i: int, end: int, c: int)
    requires 0 <= i < |data| && i < end && data[i] < 0x80
    requires c == if i + 1 + (data[i] + 1) >= end then end - (i + 1) else data[i] + 1
    ensures i + 1 + c <= |data| ==> StepAsWritten(data, i, end) == Some((data[i + 1..i + 1 + c], i + 1 + c))
    ensures i + 1 + c > |data| ==> StepAsWritten(data, i, end).None?
  {
  }

  lemma UnpackStep(data: seq<uint8>, i: int, end: int, x: seq<uint8>, next: int)
    requires i < end && StepAsWritten(data, i, end) == Some((x, next))
    ensures UnpackAsWritten(data, i, end) == Prepend(x, UnpackAsWritten(data, next, end))
  {
  }

  /** The decoded bytes are there and fit in `length` bytes. */
  predicate Fits(out: Option<seq<uint8>>, length: int) {
    out.Some? && |out.value| <= length
  }

  /** Output that already runs past the buffer cannot fit. */
  lemma Overflow(all: Option<seq<uint8>>, prefix: seq<uint8>, rest: Option<seq<uint8>>, length: int)
    requires all == Prepend(prefix, rest) && |prefix| > length
    ensures !Fits(all, length)
  {
  }
}
