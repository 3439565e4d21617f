/** The frame level of Dicom/Codec/DcmRleCodec.cs: `DcmRleCodec.Encode`
    splits every frame into one segment per byte of each sample and feeds
    each segment to an `RLEEncoder`; `DcmRleCodec.Decode` decodes every
    segment of a compressed frame and scatters its bytes back into place. */
module RleFrame {
  import opened Wrappers
  import opened Ints
  import opened RleCodec
  import EndianIO

  // ---------------------------------------------------------------------
  // Parameters
  // ---------------------------------------------------------------------

  /** The parameters handed to `Encode` or `Decode`: a
      `DcmRleCodecParameters`, or an object of some other parameter class;
      `None` stands for null. */
  datatype CodecParameters = RleParameters(reverseByteOrder: bool) | OtherParameters

  /** `GetDefaultParameters()`: a `DcmRleCodecParameters` built by its
      parameterless constructor. */
  function DefaultParameters(): (p: CodecParameters)
    ensures p.RleParameters? && !p.reverseByteOrder
  {
    RleParameters(false)
  }

  /** `parameters as DcmRleCodecParameters`, replaced by the defaults when
      that is null: the byte order is reversed only when RLE parameters
      saying so were passed. */
  function ReverseByteOrder(p: Option<CodecParameters>): (r: bool)
    ensures r <==> p == Some(RleParameters(true))
  {
    match p
    case Some(RleParameters(rev)) => rev
    case _ => DefaultParameters().reverseByteOrder
  }

  // ---------------------------------------------------------------------
  // Where the bytes of a segment sit in the frame
  // ---------------------------------------------------------------------

  /** What the frame loops read of the pixel data: ImageWidth, ImageHeight,
      BytesAllocated and SamplesPerPixel of the old pixel data, and the
      PlanarConfiguration of the new one. */
  datatype Geometry = Geometry(width: nat, height: nat, bytesAllocated: nat, samplesPerPixel: nat, planar: int)

  function PixelCount(g: Geometry): nat {
    g.width * g.height
  }

  /** `numberOfSegments`: one segment per byte of each sample. */
  function SegmentCount(g: Geometry): nat {
    g.bytesAllocated * g.samplesPerPixel
  }

  /** `UncompressedFrameSize`. */
  function FrameSize(g: Geometry): nat {
    PixelCount(g) * SegmentCount(g)
  }

  /** `segmentLength`: the pixel count rounded up to even. */
  function SegmentLength(g: Geometry): (n: nat)
    ensures n % 2 == 0 && PixelCount(g) <= n <= PixelCount(g) + 1
  {
    if PixelCount(g) % 2 == 1 then PixelCount(g) + 1 else PixelCount(g)
  }

  lemma SegmentCountPositive(g: Geometry)
    requires SegmentCount(g) > 0
    ensures g.bytesAllocated > 0 && g.samplesPerPixel > 0
  {
  }

  /** Which byte of its sample segment `s` holds: `sabyte` counted from the
      low end under ReverseByteOrder, from the high end otherwise. */
  function ByteOffset(g: Geometry, rev: bool, s: nat): (r: nat)
    requires s < SegmentCount(g)
    ensures r < g.bytesAllocated
  {
    SegmentCountPositive(g);
    var sabyte := s % g.bytesAllocated;
    if rev then sabyte else g.bytesAllocated - sabyte - 1
  }

  /** The initial `pos` of the pixel loop for segment `s`. */
  function Start(g: Geometry, rev: bool, s: nat): nat
    requires s < SegmentCount(g)
  {
    SegmentCountPositive(g);
    var sample := s / g.bytesAllocated;
    MulNonnegative(sample, g.bytesAllocated);
    MulNonnegative(sample * g.bytesAllocated, PixelCount(g));
    (if g.planar == 0 then sample * g.bytesAllocated else sample * g.bytesAllocated * PixelCount(g))
    + ByteOffset(g, rev, s)
  }

  /** The `offset` the pixel loop adds to `pos`. */
  function Stride(g: Geometry): nat {
    if g.planar == 0 then g.samplesPerPixel * g.bytesAllocated else g.bytesAllocated
  }

  /** Where pixel `p` of segment `s` sits in the frame: `pos` starts at
      `Start` and moves by the stride once per pixel. */
  function Position(g: Geometry, rev: bool, s: nat, p: nat): nat
    requires s < SegmentCount(g)
  {
    if p == 0 then Start(g, rev, s) else Position(g, rev, s, p - 1) + Stride(g)
  }

  /** `Position` in closed form. */
  lemma {:induction false} PositionClosed(g: Geometry, rev: bool, s: nat, p: nat)
    requires s < SegmentCount(g)
    ensures Position(g, rev, s, p) == Start(g, rev, s) + p * Stride(g)
  {
    if p > 0 {
      PositionClosed(g, rev, s, p - 1);
      assert (p - 1) * Stride(g) + Stride(g) == p * Stride(g);
    }
  }

  lemma FrameSizePositive(g: Geometry)
    requires FrameSize(g) > 0
    ensures PixelCount(g) > 0 && SegmentCount(g) > 0 && g.bytesAllocated > 0 && g.samplesPerPixel > 0
    ensures g.samplesPerPixel * g.bytesAllocated > 0 && g.bytesAllocated * PixelCount(g) > 0
  {
    MulPositive(g.bytesAllocated, PixelCount(g));
  }

  lemma MulPositive(a: int, b: int)
    requires a > 0 && b > 0
    ensures a * b > 0
  {
  }

  lemma MulNonnegative(a: int, b: int)
    requires a >= 0 && b >= 0
    ensures a * b >= 0
  {
  }

  /** The segment that holds byte `k` of the frame. */
  function SegmentOf(g: Geometry, rev: bool, k: nat): nat
    requires k < FrameSize(g)
  {
    FrameSizePositive(g);
    var ba, w, plane := g.bytesAllocated, g.samplesPerPixel * g.bytesAllocated, g.bytesAllocated * PixelCount(g);
    DivBounds(k, w);
    DivBounds(k % w, ba);
    DivBounds(k, plane);
    DivBounds(k, ba);
    var sample := if g.planar == 0 then (k % w) / ba else k / plane;
    var off := k % ba;
    MulNonnegative(sample, ba);
    sample * ba + (if rev then off else ba - off - 1)
  }

  /** The pixel whose byte `k` of the frame is. */
  function PixelOf(g: Geometry, rev: bool, k: nat): nat
    requires k < FrameSize(g)
  {
    FrameSizePositive(g);
    var ba, w, plane := g.bytesAllocated, g.samplesPerPixel * g.bytesAllocated, g.bytesAllocated * PixelCount(g);
    DivBounds(k, w);
    DivBounds(k, plane);
    DivBounds(k % plane, ba);
    if g.planar == 0 then k / w else (k % plane) / ba
  }

  /** `a < b` and `a` a multiple of `n` give `a + n <= b`'s bound:
      `q < m` implies `q * n + r < m * n` for `r < n`. */
  lemma BelowProduct(q: nat, m: nat, n: nat, r: nat)
    requires q < m && r < n
    ensures q * n + r < m * n
  {
    EndianIO.MulMono(q + 1, m, n);
  }

  lemma QuotientBelow(s: nat, n: nat, m: nat)
    requires n > 0 && s < n * m
    ensures s / n < m
  {
    if s / n >= m {
      EndianIO.MulMono(m, s / n, n);
    }
  }

  /** The arithmetic of an interleaved frame (planar configuration 0):
      byte `off` of sample `sample` of pixel `p`. */
  lemma InterleavedArith(ba: nat, spp: nat, pc: nat, sample: nat, off: nat, p: nat, k: nat)
    requires sample < spp && off < ba && p < pc
    requires k == sample * ba + off + p * (spp * ba)
    ensures k < pc * (ba * spp)
    ensures k / (spp * ba) == p
    ensures (k % (spp * ba)) / ba == sample
    ensures k % ba == off
  {
    var n := spp * ba;
    var r := sample * ba + off;
    BelowProduct(sample, spp, ba, off);
    EndianIO.DivModUnique(k, n, p, r);
    EndianIO.DivModUnique(r, ba, sample, off);
    assert k == (p * spp + sample) * ba + off by {
      assert p * n == (p * spp) * ba;
    }
    EndianIO.DivModUnique(k, ba, p * spp + sample, off);
    BelowProduct(p, pc, n, r);
    assert pc * n == pc * (ba * spp);
  }

  /** The arithmetic of a frame stored plane by plane (planar configuration
      1): byte `off` of pixel `p` in plane `sample`. */
  lemma PlanarArith(ba: nat, spp: nat, pc: nat, sample: nat, off: nat, p: nat, k: nat)
    requires sample < spp && off < ba && p < pc
    requires k == sample * ba * pc + off + p * ba
    ensures k < pc * (ba * spp)
    ensures k / (ba * pc) == sample
    ensures (k % (ba * pc)) / ba == p
    ensures k % ba == off
  {
    PlanarQuotients(ba, pc, sample, off, p);
    PlanarByte(ba, pc, sample, off, p);
    PlanarBound(ba, spp, pc, sample, off, p);
  }

  lemma PlanarQuotients(ba: nat, pc: nat, sample: nat, off: nat, p: nat)
    requires off < ba && p < pc
    ensures (sample * ba * pc + off + p * ba) / (ba * pc) == sample
    ensures ((sample * ba * pc + off + p * ba) % (ba * pc)) / ba == p
  {
    var n := ba * pc;
    var r := p * ba + off;
    assert sample * ba * pc == sample * n;
    BelowProduct(p, pc, ba, off);
    EndianIO.DivModUnique(sample * ba * pc + off + p * ba, n, sample, r);
    EndianIO.DivModUnique(r, ba, p, off);
  }

  lemma PlanarByte(ba: nat, pc: nat, sample: nat, off: nat, p: nat)
    requires off < ba
    ensures (sample * ba * pc + off + p * ba) % ba == off
  {
    var k := sample * ba * pc + off + p * ba;
    assert k == (sample * pc + p) * ba + off;
    EndianIO.DivModUnique(k, ba, sample * pc + p, off);
  }

  lemma PlanarBound(ba: nat, spp: nat, pc: nat, sample: nat, off: nat, p: nat)
    requires sample < spp && off < ba && p < pc
    ensures sample * ba * pc + off + p * ba < pc * (ba * spp)
  {
    var n := ba * pc;
    BelowProduct(p, pc, ba, off);
    BelowProduct(sample, spp, n, p * ba + off);
    assert sample * ba * pc == sample * n;
    assert spp * n == pc * (ba * spp);
  }

  /** Byte `k` of an interleaved frame, taken apart. */
  lemma InterleavedSplit(ba: nat, spp: nat, pc: nat, k: nat)
    requires ba > 0 && spp > 0 && k < pc * (ba * spp)
    ensures k / (spp * ba) < pc && (k % (spp * ba)) / ba < spp && k % ba < ba
    ensures k == ((k % (spp * ba)) / ba) * ba + k % ba + (k / (spp * ba)) * (spp * ba)
  {
    var n := spp * ba;
    MulPositive(spp, ba);
    var p, r := k / n, k % n;
    assert pc * (ba * spp) == n * pc;
    QuotientBelow(k, n, pc);
    QuotientBelow(r, ba, spp);
    assert r % ba == k % ba by {
      EndianIO.DivModUnique(k, ba, p * spp + r / ba, r % ba);
    }
  }

  /** Byte `k` of a frame stored plane by plane, taken apart. */
  lemma PlanarSplit(ba: nat, spp: nat, pc: nat, k: nat)
    requires ba > 0 && pc > 0 && k < pc * (ba * spp)
    ensures k / (ba * pc) < spp && (k % (ba * pc)) / ba < pc && k % ba < ba
    ensures k == (k / (ba * pc)) * ba * pc + k % ba + ((k % (ba * pc)) / ba) * ba
  {
    var n := ba * pc;
    MulPositive(ba, pc);
    var sample, r := k / n, k % n;
    assert pc * (ba * spp) == n * spp;
    QuotientBelow(k, n, spp);
    QuotientBelow(r, ba, pc);
    assert sample * n == sample * ba * pc;
    assert r % ba == k % ba by {
      EndianIO.DivModUnique(k, ba, sample * pc + r / ba, r % ba);
    }
  }

  /** Segment `s` is byte `sabyte` of sample `s / ba`. */
  lemma SegmentSplit(ba: nat, sample: nat, sabyte: nat)
    requires sabyte < ba
    ensures (sample * ba + sabyte) / ba == sample && (sample * ba + sabyte) % ba == sabyte
  {
    EndianIO.DivModUnique(sample * ba + sabyte, ba, sample, sabyte);
  }

  /** Segment `s` of byte order `rev` is the byte `ByteOffset` of sample `s / ba`. */
  lemma SegmentParts(g: Geometry, rev: bool, s: nat)
    requires s < SegmentCount(g)
    ensures g.bytesAllocated > 0 && s / g.bytesAllocated < g.samplesPerPixel
    ensures (s / g.bytesAllocated) * g.bytesAllocated
            + (if rev then ByteOffset(g, rev, s) else g.bytesAllocated - ByteOffset(g, rev, s) - 1) == s
  {
    SegmentCountPositive(g);
    var ba := g.bytesAllocated;
    QuotientBelow(s, ba, g.samplesPerPixel);
    EndianIO.DivModUnique(s, ba, s / ba, s % ba);
  }

  /** Position `(s, p)` lies in the frame and is where `SegmentOf` and
      `PixelOf` find segment `s` and pixel `p` again. */
  lemma PositionDecompose(g: Geometry, rev: bool, s: nat, p: nat)
    requires s < SegmentCount(g) && p < PixelCount(g)
    ensures Position(g, rev, s, p) < FrameSize(g)
    ensures SegmentOf(g, rev, Position(g, rev, s, p)) == s
    ensures PixelOf(g, rev, Position(g, rev, s, p)) == p
  {
    if g.planar == 0 {
      DecomposeInterleaved(g, rev, s, p);
    } else {
      DecomposePlanar(g, rev, s, p);
    }
  }

  /** The sample and the byte within it that segment `s` stands for. */
  lemma SampleAndByte(g: Geometry, rev: bool, s: nat) returns (sample: nat, off: nat)
    requires s < SegmentCount(g)
    ensures g.bytesAllocated > 0 && sample < g.samplesPerPixel && off < g.bytesAllocated
    ensures sample == s / g.bytesAllocated && off == ByteOffset(g, rev, s)
    ensures sample * g.bytesAllocated + (if rev then off else g.bytesAllocated - off - 1) == s
    ensures FrameSize(g) == PixelCount(g) * (g.bytesAllocated * g.samplesPerPixel)
  {
    sample, off := s / g.bytesAllocated, ByteOffset(g, rev, s);
    SegmentParts(g, rev, s);
    assert FrameSize(g) == PixelCount(g) * SegmentCount(g);
  }

  /** Segment `s` and pixel `p` of an interleaved frame, as the sample,
      the byte and the pixel a frame offset stands for. */
  lemma InterleavedParts(g: Geometry, rev: bool, s: nat, p: nat) returns (sample: nat, off: nat, k: nat)
    requires s < SegmentCount(g) && p < PixelCount(g) && g.planar == 0
    ensures k == Position(g, rev, s, p) && k < FrameSize(g)
    ensures g.bytesAllocated > 0
    ensures (k % (g.samplesPerPixel * g.bytesAllocated)) / g.bytesAllocated == sample
    ensures k / (g.samplesPerPixel * g.bytesAllocated) == p
    ensures k % g.bytesAllocated == off
    ensures sample * g.bytesAllocated + (if rev then off else g.bytesAllocated - off - 1) == s
  {
    sample, off := SampleAndByte(g, rev, s);
    k := Position(g, rev, s, p);
    PositionOfParts(g, rev, s, p, sample, off);
    InterleavedArith(g.bytesAllocated, g.samplesPerPixel, PixelCount(g), sample, off, p, k);
  }

  lemma DecomposeInterleaved(g: Geometry, rev: bool, s: nat, p: nat)
    requires s < SegmentCount(g) && p < PixelCount(g) && g.planar == 0
    ensures Position(g, rev, s, p) < FrameSize(g)
    ensures SegmentOf(g, rev, Position(g, rev, s, p)) == s
    ensures PixelOf(g, rev, Position(g, rev, s, p)) == p
  {
    var sample, off, k := InterleavedParts(g, rev, s, p);
    SegmentOfFormula(g, rev, k, sample);
  }

  /** The same for a frame stored plane by plane. */
  lemma PlanarPartsOf(g: Geometry, rev: bool, s: nat, p: nat) returns (sample: nat, off: nat, k: nat)
    requires s < SegmentCount(g) && p < PixelCount(g) && g.planar != 0
    ensures k == Position(g, rev, s, p) && k < FrameSize(g)
    ensures g.bytesAllocated > 0
    ensures k / (g.bytesAllocated * PixelCount(g)) == sample
    ensures (k % (g.bytesAllocated * PixelCount(g))) / g.bytesAllocated == p
    ensures k % g.bytesAllocated == off
    ensures sample * g.bytesAllocated + (if rev then off else g.bytesAllocated - off - 1) == s
  {
    sample, off := SampleAndByte(g, rev, s);
    k := Position(g, rev, s, p);
    PositionOfParts(g, rev, s, p, sample, off);
    PlanarArith(g.bytesAllocated, g.samplesPerPixel, PixelCount(g), sample, off, p, k);
  }

  lemma DecomposePlanar(g: Geometry, rev: bool, s: nat, p: nat)
    requires s < SegmentCount(g) && p < PixelCount(g) && g.planar != 0
    ensures Position(g, rev, s, p) < FrameSize(g)
    ensures SegmentOf(g, rev, Position(g, rev, s, p)) == s
    ensures PixelOf(g, rev, Position(g, rev, s, p)) == p
  {
    var sample, off, k := PlanarPartsOf(g, rev, s, p);
    SegmentOfFormula(g, rev, k, sample);
  }

  /** Byte `sabyte` of sample `sample` is a segment of the frame. */
  lemma SegmentInRange(g: Geometry, sample: nat, sabyte: nat)
    requires sample < g.samplesPerPixel && sabyte < g.bytesAllocated
    ensures sample * g.bytesAllocated + sabyte < SegmentCount(g)
  {
    BelowProduct(sample, g.samplesPerPixel, g.bytesAllocated, sabyte);
  }

  /** `Position` written out for each planar configuration. */
  lemma PositionFormula(g: Geometry, rev: bool, s: nat, p: nat)
    requires s < SegmentCount(g)
    ensures g.bytesAllocated > 0
    ensures var ba, sample, off := g.bytesAllocated, s / g.bytesAllocated, ByteOffset(g, rev, s);
      Position(g, rev, s, p)
      == if g.planar == 0 then sample * ba + off + p * (g.samplesPerPixel * ba)
         else sample * ba * PixelCount(g) + off + p * ba
  {
    SegmentCountPositive(g);
    PositionClosed(g, rev, s, p);
  }

  /** `Position` in terms of the sample and byte a segment stands for. */
  lemma PositionOfParts(g: Geometry, rev: bool, s: nat, p: nat, sample: nat, off: nat)
    requires s < SegmentCount(g) && g.bytesAllocated > 0
    requires s / g.bytesAllocated == sample && ByteOffset(g, rev, s) == off
    ensures Position(g, rev, s, p)
      == if g.planar == 0 then sample * g.bytesAllocated + off + p * (g.samplesPerPixel * g.bytesAllocated)
         else sample * g.bytesAllocated * PixelCount(g) + off + p * g.bytesAllocated
  {
    PositionFormula(g, rev, s, p);
  }

  /** `SegmentOf` written out: byte `k % ba` of sample `sample`. */
  lemma SegmentOfFormula(g: Geometry, rev: bool, k: nat, sample: nat)
    requires k < FrameSize(g) && g.bytesAllocated > 0
    requires sample == if g.planar == 0 then (k % (g.samplesPerPixel * g.bytesAllocated)) / g.bytesAllocated
                       else k / (g.bytesAllocated * PixelCount(g))
    ensures var ba := g.bytesAllocated;
      SegmentOf(g, rev, k) == sample * ba + (if rev then k % ba else ba - k % ba - 1)
  {
  }

  /** The segment found for byte `k` names back byte `k % ba` of its sample. */
  lemma SegmentOfParts(g: Geometry, rev: bool, k: nat, sample: nat)
    requires k < FrameSize(g) && g.bytesAllocated > 0 && sample < g.samplesPerPixel
    requires SegmentOf(g, rev, k) == sample * g.bytesAllocated
      + (if rev then k % g.bytesAllocated else g.bytesAllocated - k % g.bytesAllocated - 1)
    ensures SegmentOf(g, rev, k) < SegmentCount(g)
    ensures SegmentOf(g, rev, k) / g.bytesAllocated == sample
    ensures ByteOffset(g, rev, SegmentOf(g, rev, k)) == k % g.bytesAllocated
  {
    var ba := g.bytesAllocated;
    var sabyte := if rev then k % ba else ba - k % ba - 1;
    SegmentSplit(ba, sample, sabyte);
    SegmentInRange(g, sample, sabyte);
  }

  lemma PositionCoversInterleaved(g: Geometry, rev: bool, k: nat)
    requires k < FrameSize(g) && g.planar == 0
    ensures SegmentOf(g, rev, k) < SegmentCount(g) && PixelOf(g, rev, k) < PixelCount(g)
    ensures Position(g, rev, SegmentOf(g, rev, k), PixelOf(g, rev, k)) == k
  {
    FrameSizePositive(g);
    var ba, spp, pc := g.bytesAllocated, g.samplesPerPixel, PixelCount(g);
    assert FrameSize(g) == pc * (ba * spp);
    InterleavedSplit(ba, spp, pc, k);
    var sample := (k % (spp * ba)) / ba;
    SegmentOfFormula(g, rev, k, sample);
    SegmentOfParts(g, rev, k, sample);
    PositionOfParts(g, rev, SegmentOf(g, rev, k), PixelOf(g, rev, k), sample, k % ba);
  }

  /** For planar configuration 1: the plane and the pixel byte `k` is in. */
  lemma PlanarParts(g: Geometry, rev: bool, k: nat)
    requires k < FrameSize(g) && g.planar != 0
    ensures g.bytesAllocated > 0 && PixelCount(g) > 0
    ensures var ba, pc := g.bytesAllocated, PixelCount(g);
      && SegmentOf(g, rev, k) < SegmentCount(g)
      && SegmentOf(g, rev, k) / ba == k / (ba * pc)
      && ByteOffset(g, rev, SegmentOf(g, rev, k)) == k % ba
      && PixelOf(g, rev, k) == (k % (ba * pc)) / ba < pc
      && k == (k / (ba * pc)) * ba * pc + k % ba + ((k % (ba * pc)) / ba) * ba
  {
    FrameSizePositive(g);
    var ba, spp, pc := g.bytesAllocated, g.samplesPerPixel, PixelCount(g);
    assert FrameSize(g) == pc * (ba * spp);
    PlanarSplit(ba, spp, pc, k);
    var sample := k / (ba * pc);
    SegmentOfFormula(g, rev, k, sample);
    SegmentOfParts(g, rev, k, sample);
  }

  lemma PositionCoversPlanar(g: Geometry, rev: bool, k: nat)
    requires k < FrameSize(g) && g.planar != 0
    ensures SegmentOf(g, rev, k) < SegmentCount(g) && PixelOf(g, rev, k) < PixelCount(g)
    ensures Position(g, rev, SegmentOf(g, rev, k), PixelOf(g, rev, k)) == k
  {
    PlanarParts(g, rev, k);
    var ba, pc := g.bytesAllocated, PixelCount(g);
    PositionOfParts(g, rev, SegmentOf(g, rev, k), PixelOf(g, rev, k), k / (ba * pc), k % ba);
  }

  /** Every byte of the frame is the position of its segment and pixel. */
  lemma PositionCovers(g: Geometry, rev: bool, k: nat)
    requires k < FrameSize(g)
    ensures SegmentOf(g, rev, k) < SegmentCount(g) && PixelOf(g, rev, k) < PixelCount(g)
    ensures Position(g, rev, SegmentOf(g, rev, k), PixelOf(g, rev, k)) == k
  {
    if g.planar == 0 {
      PositionCoversInterleaved(g, rev, k);
    } else {
      PositionCoversPlanar(g, rev, k);
    }
  }

  /** Different pixels of different segments never share a byte. */
  lemma PositionInjective(g: Geometry, rev: bool, s1: nat, p1: nat, s2: nat, p2: nat)
    requires s1 < SegmentCount(g) && p1 < PixelCount(g) && s2 < SegmentCount(g) && p2 < PixelCount(g)
    requires Position(g, rev, s1, p1) == Position(g, rev, s2, p2)
    ensures s1 == s2 && p1 == p2
  {
    PositionDecompose(g, rev, s1, p1);
    PositionDecompose(g, rev, s2, p2);
  }

  /** Advancing `pos` by the stride moves to the next pixel. */
  lemma PositionNext(g: Geometry, rev: bool, s: nat, p: nat)
    requires s < SegmentCount(g)
    ensures Position(g, rev, s, p + 1) == Position(g, rev, s, p) + Stride(g)
  {
  }

  // ---------------------------------------------------------------------
  // Encoding a frame
  // ---------------------------------------------------------------------

  /** The exception the frame loops throw: `frameData[pos]` past the end of
      the frame, or `_offsets[_count++]` past the fifteen offsets. */
  datatype FrameError = IndexOutOfRange

  /** Every byte the pixel loop reads for the `length` pixels of every
      segment lies inside a frame of `n` bytes. */
  ghost predicate ReadsInFrame(g: Geometry, rev: bool, length: nat, n: nat) {
    forall s, p :: 0 <= s < SegmentCount(g) && 0 <= p < length ==> Position(g, rev, s, p) < n
  }

  /** The bytes fed to the encoder for segment `s`: pixels `0 .. length - 1`
      of that byte of that sample. */
  function Gather(frame: seq<uint8>, g: Geometry, rev: bool, s: nat, length: nat): (r: seq<uint8>)
    requires s < SegmentCount(g)
    requires forall p :: 0 <= p < length ==> Position(g, rev, s, p) < |frame|
    ensures |r| == length
    ensures forall p :: 0 <= p < length ==> r[p] == frame[Position(g, rev, s, p)]
  {
    seq(length, p requires 0 <= p < length => frame[Position(g, rev, s, p)])
  }

  /** `out` is an RLE frame whose header counts the frame's segments and
      whose every segment decodes to the gathered bytes of that segment. */
  ghost predicate Encodes(out: seq<uint8>, frame: seq<uint8>, g: Geometry, rev: bool, length: nat) {
    && SegmentCount(g) <= 15 && ReadsInFrame(g, rev, length, |frame|) && 64 <= |out|
    && (|out| < TWO_32 ==>
          && ReadLE32(out, 0) == SegmentCount(g)
          && forall s :: 0 <= s < SegmentCount(g) ==>
               SegmentDecodes(out, s, SegmentCount(g), Gather(frame, g, rev, s, length)))
  }

  /** After `n` segments: the first `n` segments' reads stay in the frame,
      every finished segment expanded to its gathered bytes, and the
      current input is the last segment's gathered bytes. */
  ghost predicate SegmentsGathered(closed: seq<seq<Run>>, input: seq<uint8>, frame: seq<uint8>, g: Geometry, rev: bool, length: nat, n: nat) {
    && |closed| == n && n <= SegmentCount(g)
    && (forall j, p :: 0 <= j < n && 0 <= p < length ==> Position(g, rev, j, p) < |frame|)
    && (forall j :: 0 <= j < n - 1 ==> Expanded(closed[j + 1]) == Gather(frame, g, rev, j, length))
    && (n > 0 ==> input == Gather(frame, g, rev, n - 1, length))
  }

  /** The body of the frame loop of `DcmRleCodec.Encode` for one frame:
      a fresh `RLEEncoder`, one `NextSegment` per segment followed by the
      `length` bytes of that segment, then `GetBuffer`. It fails exactly
      when a sixteenth segment is started or a read leaves the frame. */
  method EncodeSegments(frame: seq<uint8>, g: Geometry, rev: bool, length: nat)
    returns (r: Result<seq<uint8>, FrameError>)
    ensures r.Failure? <==> SegmentCount(g) > 15 || !ReadsInFrame(g, rev, length, |frame|)
    ensures r.Success? ==> Encodes(r.value, frame, g, rev, length)
  {
    var encoder := new RleEncoder();
    var numberOfSegments := g.bytesAllocated * g.samplesPerPixel;
    var s := 0;
    while s < numberOfSegments
      invariant 0 <= s <= numberOfSegments && s <= 15
      invariant fresh(encoder) && fresh(encoder.offsets) && fresh(encoder.buffer)
      invariant encoder.Valid() && encoder.count == s
      invariant SegmentsGathered(encoder.closed, encoder.input, frame, g, rev, length, s)
    {
      var ok := EncodeSegment(encoder, frame, g, rev, s, length);
      if !ok {
        SegmentFailure(frame, g, rev, s, length);
        return Failure(IndexOutOfRange);
      }
      s := s + 1;
    }
    var out := Finish(encoder, frame, g, rev, length);
    r := Success(out);
  }

  /** A segment that cannot be started or read means a sixteenth segment
      or a read outside the frame. */
  lemma SegmentFailure(frame: seq<uint8>, g: Geometry, rev: bool, s: nat, length: nat)
    requires s < SegmentCount(g) && s <= 15
    requires !(s < 15 && forall p :: 0 <= p < length ==> Position(g, rev, s, p) < |frame|)
    ensures SegmentCount(g) > 15 || !ReadsInFrame(g, rev, length, |frame|)
  {
    if s < 15 {
      var p :| 0 <= p < length && !(Position(g, rev, s, p) < |frame|);
    }
  }

  /** `NextSegment` and the pixel loop of segment `s`. */
  method EncodeSegment(encoder: RleEncoder, frame: seq<uint8>, g: Geometry, rev: bool, s: nat, length: nat)
    returns (ok: bool)
    requires encoder.Valid() && encoder.count == s && s < SegmentCount(g)
    requires SegmentsGathered(encoder.closed, encoder.input, frame, g, rev, length, s)
    modifies encoder`stream, encoder`prevByte, encoder`repeatCount, encoder`bufferPos, encoder`runs, encoder`input
    modifies encoder`count, encoder`starts, encoder`closed, encoder`pads, encoder.buffer, encoder.offsets
    ensures ok <==> s < 15 && forall p :: 0 <= p < length ==> Position(g, rev, s, p) < |frame|
    ensures ok ==> encoder.Valid() && encoder.count == s + 1
    ensures ok ==> SegmentsGathered(encoder.closed, encoder.input, frame, g, rev, length, s + 1)
  {
    ghost var closed0, input0 := encoder.closed, encoder.input;
    var next := encoder.NextSegment();
    if next.Failure? {
      return false;
    }
    ghost var closed1 := encoder.closed;
    ok := EncodeOneSegment(encoder, frame, g, rev, s, length);
    if ok {
      Gathered(closed0, input0, closed1, encoder.input, frame, g, rev, length, s);
    }
  }

  /** One more segment gathered: the input of the last one is now expanded
      by the finished stretch `NextSegment` closed. */
  lemma Gathered(closed0: seq<seq<Run>>, input0: seq<uint8>, closed1: seq<seq<Run>>, input1: seq<uint8>,
                 frame: seq<uint8>, g: Geometry, rev: bool, length: nat, s: nat)
    requires SegmentsGathered(closed0, input0, frame, g, rev, length, s) && s < SegmentCount(g)
    requires |closed1| == s + 1 && closed1[..s] == closed0 && Expanded(closed1[s]) == input0
    requires forall p :: 0 <= p < length ==> Position(g, rev, s, p) < |frame|
    requires input1 == Gather(frame, g, rev, s, length)
    ensures SegmentsGathered(closed1, input1, frame, g, rev, length, s + 1)
  {
    forall j | 0 <= j < s
      ensures Expanded(closed1[j + 1]) == Gather(frame, g, rev, j, length)
    {
      if j + 1 < s {
        assert closed1[j + 1] == closed0[j + 1];
      }
    }
  }

  /** `GetBuffer` once every segment is gathered. */
  method Finish(encoder: RleEncoder, frame: seq<uint8>, g: Geometry, rev: bool, length: nat) returns (out: seq<uint8>)
    requires encoder.Valid() && encoder.count == SegmentCount(g) <= 15
    requires SegmentsGathered(encoder.closed, encoder.input, frame, g, rev, length, SegmentCount(g))
    modifies encoder`stream, encoder`prevByte, encoder`repeatCount, encoder`bufferPos, encoder`runs, encoder.buffer
    ensures Encodes(out, frame, g, rev, length)
  {
    ghost var closed, input := encoder.closed, encoder.input;
    out := encoder.GetBuffer();
    assert encoder.closed == closed && encoder.input == input && encoder.count == |closed|;
    assert |out| >= 64 by {
      assert encoder.offsets.Length == 15;
    }
    if |out| < TWO_32 {
      forall j | 0 <= j < |closed|
        ensures SegmentDecodes(out, j, |closed|, InputOf(closed, input, j))
      {
        assert encoder.SegmentInput(j) == InputOf(closed, input, j);
      }
    }
    FinishedEncodes(out, frame, g, rev, length, closed, input);
  }

  /** The buffer of a finished encoder whose segments were gathered from
      the frame encodes the frame. */
  lemma FinishedEncodes(out: seq<uint8>, frame: seq<uint8>, g: Geometry, rev: bool, length: nat,
                        closed: seq<seq<Run>>, input: seq<uint8>)
    requires |closed| == SegmentCount(g) <= 15 && 64 <= |out|
    requires SegmentsGathered(closed, input, frame, g, rev, length, SegmentCount(g))
    requires |out| < TWO_32 ==> ReadLE32(out, 0) == |closed|
    requires |out| < TWO_32 ==> forall j :: 0 <= j < |closed| ==>
      SegmentDecodes(out, j, |closed|, InputOf(closed, input, j))
    ensures Encodes(out, frame, g, rev, length)
  {
    var n := SegmentCount(g);
    if |out| < TWO_32 {
      forall j | 0 <= j < n
        ensures SegmentDecodes(out, j, n, Gather(frame, g, rev, j, length))
      {
        var inp := InputOf(closed, input, j);
        assert SegmentDecodes(out, j, n, inp);
        assert inp == Gather(frame, g, rev, j, length);
      }
    }
  }

  /** The pixel loop for segment `s`: `pos` starts at the segment's first
      byte and moves by the stride; each byte read is given to `Encode`.
      It stops with `false` at the first read past the end of the frame. */
  method EncodeOneSegment(encoder: RleEncoder, frame: seq<uint8>, g: Geometry, rev: bool, s: nat, length: nat)
    returns (ok: bool)
    requires encoder.Valid() && s < SegmentCount(g) && encoder.input == []
    modifies encoder`stream, encoder`prevByte, encoder`repeatCount, encoder`bufferPos, encoder`runs, encoder`input, encoder.buffer
    ensures encoder.Valid()
    ensures ok <==> forall p :: 0 <= p < length ==> Position(g, rev, s, p) < |frame|
    ensures ok ==> encoder.input == Gather(frame, g, rev, s, length)
  {
    var pos, offset := SegmentStart(g, rev, s);
    var p := 0;
    while p < length
      invariant 0 <= p <= length && offset == Stride(g)
      invariant pos == Position(g, rev, s, p)
      invariant encoder.Valid()
      invariant forall q :: 0 <= q < p ==> Position(g, rev, s, q) < |frame|
      invariant encoder.input == Gather(frame, g, rev, s, p)
    {
      if pos >= |frame| {
        return false;
      }
      ghost var before := encoder.input;
      encoder.Encode(frame[pos]);
      PixelStep(frame, g, rev, s, p, before);
      pos := pos + offset;
      p := p + 1;
    }
    ok := true;
  }

  /** `pos` and `offset` as the segment loop sets them up for segment `s`. */
  method SegmentStart(g: Geometry, rev: bool, s: nat) returns (pos: int, offset: int)
    requires s < SegmentCount(g)
    ensures pos == Position(g, rev, s, 0) && offset == Stride(g)
  {
    SegmentCountPositive(g);
    var ba := g.bytesAllocated;
    var sample := s / ba;
    var sabyte := s % ba;
    if g.planar == 0 {
      pos := sample * ba;
      offset := g.samplesPerPixel * ba;
    } else {
      pos := sample * ba * PixelCount(g);
      offset := ba;
    }
    if rev {
      pos := pos + sabyte;
    } else {
      pos := pos + ba - sabyte - 1;
    }
  }

  /** One pass of the pixel loop: the byte at `pos` is in the frame, so the
      gathered bytes grow by it and `pos` moves to the next pixel. */
  lemma PixelStep(frame: seq<uint8>, g: Geometry, rev: bool, s: nat, p: nat, input: seq<uint8>)
    requires s < SegmentCount(g) && Position(g, rev, s, p) < |frame|
    requires forall q :: 0 <= q < p ==> Position(g, rev, s, q) < |frame|
    requires input == Gather(frame, g, rev, s, p)
    ensures forall q :: 0 <= q < p + 1 ==> Position(g, rev, s, q) < |frame|
    ensures input + [frame[Position(g, rev, s, p)]] == Gather(frame, g, rev, s, p + 1)
    ensures Position(g, rev, s, p + 1) == Position(g, rev, s, p) + Stride(g)
  {
    GatherStep(frame, g, rev, s, p);
    PositionNext(g, rev, s, p);
  }

  /** Gathering one more pixel appends its byte. */
  lemma GatherStep(frame: seq<uint8>, g: Geometry, rev: bool, s: nat, p: nat)
    requires s < SegmentCount(g)
    requires forall q :: 0 <= q <= p ==> Position(g, rev, s, q) < |frame|
    ensures Gather(frame, g, rev, s, p + 1) == Gather(frame, g, rev, s, p) + [frame[Position(g, rev, s, p)]]
  {
  }

  /** `DcmRleCodec.Encode` for one frame as written: every segment reads
      `segmentLength` pixels, the pixel count rounded up to even. For a
      frame of `UncompressedFrameSize` bytes this fails whenever the pixel
      count is odd, because the extra pixel of the last plane lies past the
      end of the frame. */
  method EncodeFrameAsWritten(frame: seq<uint8>, g: Geometry, rev: bool) returns (r: Result<seq<uint8>, FrameError>)
    ensures r.Failure? <==> SegmentCount(g) > 15 || !ReadsInFrame(g, rev, SegmentLength(g), |frame|)
    ensures |frame| == FrameSize(g) ==>
      (r.Failure? <==> SegmentCount(g) > 15 || (SegmentCount(g) > 0 && PixelCount(g) % 2 == 1))
    ensures r.Success? ==> Encodes(r.value, frame, g, rev, SegmentLength(g))
  {
    if |frame| == FrameSize(g) {
      if PixelCount(g) % 2 == 1 {
        if SegmentCount(g) > 0 {
          OddPixelCountOverRead(g, rev);
        }
      } else {
        FrameReadsInBounds(g, rev);
      }
    }
    r := EncodeSegments(frame, g, rev, SegmentLength(g));
  }

  /** `DcmRleCodec.Encode` for one frame with the pixel loop bounded by the
      pixel count: a frame of `UncompressedFrameSize` bytes fails only for
      more than fifteen segments. */
  method EncodeFrame(frame: seq<uint8>, g: Geometry, rev: bool) returns (r: Result<seq<uint8>, FrameError>)
    ensures r.Failure? <==> SegmentCount(g) > 15 || !ReadsInFrame(g, rev, PixelCount(g), |frame|)
    ensures |frame| == FrameSize(g) ==> (r.Failure? <==> SegmentCount(g) > 15)
    ensures r.Success? ==> Encodes(r.value, frame, g, rev, PixelCount(g))
  {
    if |frame| == FrameSize(g) {
      FrameReadsInBounds(g, rev);
    }
    r := EncodeSegments(frame, g, rev, PixelCount(g));
  }

  /** Byte 0 of the last sample is a segment, and its pixel number
      `PixelCount` lies past the end of the frame. */
  lemma LastPlanePastEnd(g: Geometry, rev: bool)
    requires SegmentCount(g) > 0
    ensures (g.samplesPerPixel - 1) * g.bytesAllocated < SegmentCount(g)
    ensures Position(g, rev, (g.samplesPerPixel - 1) * g.bytesAllocated, PixelCount(g)) >= FrameSize(g)
  {
    SegmentCountPositive(g);
    var ba, spp, pc := g.bytesAllocated, g.samplesPerPixel, PixelCount(g);
    var s := (spp - 1) * ba;
    SegmentInRange(g, spp - 1, 0);
    SegmentSplit(ba, spp - 1, 0);
    PositionOfParts(g, rev, s, pc, spp - 1, ByteOffset(g, rev, s));
    assert FrameSize(g) == pc * (ba * spp);
    LastPlaneArith(ba, spp, pc);
  }

  lemma LastPlaneArith(ba: nat, spp: nat, pc: nat)
    requires spp > 0
    ensures (spp - 1) * ba * pc + pc * ba == pc * (ba * spp)
    ensures pc * (spp * ba) == pc * (ba * spp)
  {
    calc {
      (spp - 1) * ba * pc + pc * ba;
      spp * ba * pc - ba * pc + pc * ba;
      { assert ba * pc == pc * ba; }
      spp * ba * pc;
      { assert spp * ba * pc == pc * (spp * ba); assert spp * ba == ba * spp; }
      pc * (ba * spp);
    }
  }

  /** With an odd pixel count the `segmentLength` loop reads past the end
      of a frame of `UncompressedFrameSize` bytes. */
  lemma OddPixelCountOverRead(g: Geometry, rev: bool)
    requires SegmentCount(g) > 0 && PixelCount(g) % 2 == 1
    ensures !ReadsInFrame(g, rev, SegmentLength(g), FrameSize(g))
  {
    LastPlanePastEnd(g, rev);
    var s, pc := (g.samplesPerPixel - 1) * g.bytesAllocated, PixelCount(g);
    assert pc < SegmentLength(g);
    assert 0 <= s < SegmentCount(g) && !(Position(g, rev, s, pc) < FrameSize(g));
  }

  /** A loop over the pixel count stays inside the frame. */
  lemma FrameReadsInBounds(g: Geometry, rev: bool)
    ensures ReadsInFrame(g, rev, PixelCount(g), FrameSize(g))
  {
    forall s, p | 0 <= s < SegmentCount(g) && 0 <= p < PixelCount(g)
      ensures Position(g, rev, s, p) < FrameSize(g)
    {
      PositionDecompose(g, rev, s, p);
    }
  }

  /** `DcmRleCodec.Encode`: every frame, in order, encoded and handed to
      `AddFrame`. The frames are what `GetFrameDataU8` returns for frames
      `0 .. NumberOfFrames - 1`; `added` are the frames added before the
      first exception, if any. */
  method EncodePixelData(frames: seq<seq<uint8>>, g: Geometry, parameters: Option<CodecParameters>)
    returns (added: seq<seq<uint8>>, err: Option<FrameError>)
    ensures |added| <= |frames| && (err.None? <==> |added| == |frames|)
    ensures forall i :: 0 <= i < |added| ==>
      Encodes(added[i], frames[i], g, ReverseByteOrder(parameters), PixelCount(g))
    ensures err.Some? ==>
      SegmentCount(g) > 15 || !ReadsInFrame(g, ReverseByteOrder(parameters), PixelCount(g), |frames[|added|]|)
  {
    var rev := ReverseByteOrder(parameters);
    added := [];
    var i := 0;
    while i < |frames|
      invariant 0 <= i <= |frames| && |added| == i
      invariant forall j :: 0 <= j < i ==> Encodes(added[j], frames[j], g, rev, PixelCount(g))
    {
      var r := EncodeFrame(frames[i], g, rev);
      if r.Failure? {
        return added, Some(r.error);
      }
      added := added + [r.value];
      i := i + 1;
    }
    err := None;
  }

  // ---------------------------------------------------------------------
  // Decoding a frame
  // ---------------------------------------------------------------------

  /** The contents of the segment buffer after each of segments
      `s .. n - 1` is decoded into it in turn, starting from `buf`, or the
      first exception: `DecodeSegment` writes a segment's bytes to the front
      and leaves the rest of the buffer as it was. */
  ghost function SegmentsAfter(d: RleDecoder, buf: seq<uint8>, s: nat, n: nat): (r: Result<seq<seq<uint8>>, DecodeError>)
    requires |d.offsets| == 15 && s <= n
    ensures r.Success? ==> |r.value| == n - s && forall j :: 0 <= j < |r.value| ==> |r.value[j]| == |buf|
    ensures r.Failure? ==> r.error == SegmentOutOfRange || r.error == MalformedSegment
    decreases n - s
  {
    if s == n then Success([])
    else match SegmentOutput(d, s)
      case Failure(e) => Failure(e)
      case Success(out) =>
        if |out| > |buf| then Failure(MalformedSegment)
        else
          var buf' := out + buf[|out|..];
          match SegmentsAfter(d, buf', s + 1, n)
          case Failure(e) => Failure(e)
          case Success(rest) => Success([buf'] + rest)
  }

  /** What `DcmRleCodec.Decode` does with one compressed frame before the
      scatter loop: read the header, check the segment count, decode every
      segment into the segment buffer that starts as `init`. */
  ghost function FrameSegments(rle: seq<uint8>, g: Geometry, init: seq<uint8>): (r: Result<seq<seq<uint8>>, DecodeError>)
    ensures r.Success? ==> |r.value| == SegmentCount(g) && forall j :: 0 <= j < |r.value| ==> |r.value[j]| == |init|
    ensures r == Failure(TruncatedHeader) <==> |rle| < 64
  {
    match ReadHeader(rle)
    case None => Failure(TruncatedHeader)
    case Some(d) =>
      if d.count as int != SegmentCount(g) then Failure(UnexpectedSegmentCount)
      else SegmentsAfter(d, init, 0, SegmentCount(g))
  }

  /** The frame the scatter loop builds: byte `k` comes from pixel
      `PixelOf(k)` of the buffer after segment `SegmentOf(k)`. */
  function Assemble(g: Geometry, rev: bool, bufs: seq<seq<uint8>>): (r: seq<uint8>)
    requires |bufs| == SegmentCount(g) && forall j :: 0 <= j < |bufs| ==> |bufs[j]| >= PixelCount(g)
    ensures |r| == FrameSize(g)
    ensures forall s, p :: 0 <= s < SegmentCount(g) && 0 <= p < PixelCount(g) ==>
      Position(g, rev, s, p) < |r| && r[Position(g, rev, s, p)] == bufs[s][p]
  {
    var r := seq(FrameSize(g), k requires 0 <= k < FrameSize(g) =>
      PositionCovers(g, rev, k);
      bufs[SegmentOf(g, rev, k)][PixelOf(g, rev, k)]);
    forall s, p | 0 <= s < SegmentCount(g) && 0 <= p < PixelCount(g)
      ensures Position(g, rev, s, p) < |r| && r[Position(g, rev, s, p)] == bufs[s][p]
    {
      PositionDecompose(g, rev, s, p);
    }
    r
  }

  /** The segment buffer after the last segment, or `init` for none. */
  function LastBuffer(bufs: seq<seq<uint8>>, init: seq<uint8>): seq<uint8> {
    if |bufs| == 0 then init else bufs[|bufs| - 1]
  }

  /** Every byte of the frame whose segment comes before `s`, or is `s`
      with a pixel before `p`, already holds its pixel of that segment's
      buffer. */
  ghost predicate Scattered(frame: seq<uint8>, g: Geometry, rev: bool, bufs: seq<seq<uint8>>, s: nat, p: nat)
    requires |frame| == FrameSize(g)
  {
    forall k :: 0 <= k < |frame| && (SegmentOf(g, rev, k) < s || (SegmentOf(g, rev, k) == s && PixelOf(g, rev, k) < p)) ==>
      SegmentOf(g, rev, k) < |bufs| && PixelOf(g, rev, k) < |bufs[SegmentOf(g, rev, k)]|
      && frame[k] == bufs[SegmentOf(g, rev, k)][PixelOf(g, rev, k)]
  }

  /** `frameData[pos] = segment[p]` extends the scattered part by one pixel. */
  lemma ScatterStep(frame: seq<uint8>, g: Geometry, rev: bool, bufs: seq<seq<uint8>>, s: nat, p: nat)
    requires |frame| == FrameSize(g) && s < SegmentCount(g) && p < PixelCount(g)
    requires s < |bufs| && p < |bufs[s]| && Scattered(frame, g, rev, bufs, s, p)
    ensures Position(g, rev, s, p) < |frame|
    ensures Scattered(frame[Position(g, rev, s, p) := bufs[s][p]], g, rev, bufs, s, p + 1)
  {
    var pos := Position(g, rev, s, p);
    PositionDecompose(g, rev, s, p);
    var frame' := frame[pos := bufs[s][p]];
    forall k | 0 <= k < |frame'| && (SegmentOf(g, rev, k) < s || (SegmentOf(g, rev, k) == s && PixelOf(g, rev, k) < p + 1))
      ensures SegmentOf(g, rev, k) < |bufs| && PixelOf(g, rev, k) < |bufs[SegmentOf(g, rev, k)]|
      ensures frame'[k] == bufs[SegmentOf(g, rev, k)][PixelOf(g, rev, k)]
    {
      if k != pos && SegmentOf(g, rev, k) == s && PixelOf(g, rev, k) == p {
        PositionCovers(g, rev, k);
      }
    }
  }

  /** A whole segment scattered: the next segment starts at pixel 0. */
  lemma ScatterNext(frame: seq<uint8>, g: Geometry, rev: bool, bufs: seq<seq<uint8>>, s: nat)
    requires |frame| == FrameSize(g) && Scattered(frame, g, rev, bufs, s, PixelCount(g))
    ensures Scattered(frame, g, rev, bufs, s + 1, 0)
  {
    forall k | 0 <= k < |frame| && SegmentOf(g, rev, k) < s + 1
      ensures SegmentOf(g, rev, k) < s || (SegmentOf(g, rev, k) == s && PixelOf(g, rev, k) < PixelCount(g))
    {
      PositionCovers(g, rev, k);
    }
  }

  /** Once every segment is scattered the frame is the assembled one. */
  lemma ScatterDone(frame: seq<uint8>, g: Geometry, rev: bool, bufs: seq<seq<uint8>>)
    requires |frame| == FrameSize(g) && |bufs| == SegmentCount(g)
    requires forall j :: 0 <= j < |bufs| ==> |bufs[j]| >= PixelCount(g)
    requires Scattered(frame, g, rev, bufs, SegmentCount(g), 0)
    ensures frame == Assemble(g, rev, bufs)
  {
    var a := Assemble(g, rev, bufs);
    forall k | 0 <= k < |frame|
      ensures frame[k] == a[k]
    {
      PositionCovers(g, rev, k);
      PositionDecompose(g, rev, SegmentOf(g, rev, k), PixelOf(g, rev, k));
    }
  }

  /** `rest` with the buffers `done` in front, or its exception. */
  function Prefixed(done: seq<seq<uint8>>, rest: Result<seq<seq<uint8>>, DecodeError>): (r: Result<seq<seq<uint8>>, DecodeError>)
    ensures r.Success? <==> rest.Success?
    ensures r.Failure? ==> r == rest
    ensures r.Success? ==> r.value == done + rest.value
  {
    match rest
    case Failure(e) => Failure(e)
    case Success(v) => Success(done + v)
  }

  /** A segment that decodes and fits moves its buffer to the decoded part. */
  lemma SegmentsAfterStep(d: RleDecoder, buf: seq<uint8>, s: nat, n: nat, buf': seq<uint8>, done: seq<seq<uint8>>)
    requires |d.offsets| == 15 && s < n
    requires SegmentOutput(d, s).Success? && |SegmentOutput(d, s).value| <= |buf|
    requires buf' == SegmentOutput(d, s).value + buf[|SegmentOutput(d, s).value|..]
    ensures Prefixed(done, SegmentsAfter(d, buf, s, n)) == Prefixed(done + [buf'], SegmentsAfter(d, buf', s + 1, n))
  {
    match SegmentsAfter(d, buf', s + 1, n)
    case Failure(e) =>
    case Success(rest) =>
      assert SegmentsAfter(d, buf, s, n) == Success([buf'] + rest);
      Associate(done, [buf'], rest);
  }

  /** Before the first segment nothing is decoded yet. */
  lemma SegmentsBegin(rle: seq<uint8>, g: Geometry, init: seq<uint8>, d: RleDecoder)
    requires ReadHeader(rle) == Some(d) && d.count as int == SegmentCount(g)
    ensures FrameSegments(rle, g, init) == Prefixed([], SegmentsAfter(d, init, 0, SegmentCount(g)))
  {
    match SegmentsAfter(d, init, 0, SegmentCount(g))
    case Failure(e) =>
    case Success(v) =>
      assert [] + v == v;
  }

  /** After the last segment every buffer is decoded. */
  lemma SegmentsEnd(d: RleDecoder, buf: seq<uint8>, n: nat, done: seq<seq<uint8>>)
    requires |d.offsets| == 15
    ensures Prefixed(done, SegmentsAfter(d, buf, n, n)) == Success(done)
  {
    assert done + [] == done;
  }

  /** A segment that does not decode, or does not fit, ends the frame with
      the exception `DecodeSegment` throws. */
  lemma SegmentsAfterFails(d: RleDecoder, buf: seq<uint8>, s: nat, n: nat, e: DecodeError)
    requires |d.offsets| == 15 && s < n
    requires !(SegmentOutput(d, s).Success? && |SegmentOutput(d, s).value| <= |buf|)
    requires e == SegmentOutOfRange || e == MalformedSegment
    requires e == SegmentOutOfRange <==> SegmentOutput(d, s) == Failure(SegmentOutOfRange)
    ensures SegmentsAfter(d, buf, s, n) == Failure(e)
  {
    match SegmentOutput(d, s)
    case Failure(e0) =>
      assert e0 == e;
    case Success(out) =>
      assert |out| > |buf|;
  }

  /** Scattered bytes stay scattered when another buffer is added at the end. */
  lemma ScatteredExtend(frame: seq<uint8>, g: Geometry, rev: bool, bufs: seq<seq<uint8>>, x: seq<uint8>, s: nat)
    requires |frame| == FrameSize(g) && |bufs| >= s && Scattered(frame, g, rev, bufs, s, 0)
    ensures Scattered(frame, g, rev, bufs + [x], s, 0)
  {
    forall k | 0 <= k < |frame| && SegmentOf(g, rev, k) < s
      ensures (bufs + [x])[SegmentOf(g, rev, k)] == bufs[SegmentOf(g, rev, k)]
    {
    }
  }

  /** The body of the frame loop of `DcmRleCodec.Decode` for one frame:
      read the header, check the segment count, then decode each segment
      into `segment` and scatter its first `pixelCount` bytes into
      `frameData`. */
  method DecodeFrame(rle: seq<uint8>, g: Geometry, rev: bool, segment: array<uint8>, frameData: array<uint8>)
    returns (r: Result<(), DecodeError>)
    requires segment.Length == SegmentLength(g) && frameData.Length == FrameSize(g) && segment != frameData
    modifies segment, frameData
    ensures r.Failure? <==> FrameSegments(rle, g, old(segment[..])).Failure?
    ensures r.Failure? ==> r.error == FrameSegments(rle, g, old(segment[..])).error
    ensures r.Success? ==> frameData[..] == Assemble(g, rev, FrameSegments(rle, g, old(segment[..])).value)
    ensures r.Success? ==> segment[..] == LastBuffer(FrameSegments(rle, g, old(segment[..])).value, old(segment[..]))
  {
    var header := ReadHeader(rle);
    if header.None? {
      return Failure(TruncatedHeader);
    }
    var decoder := header.value;
    var numberOfSegments := g.bytesAllocated * g.samplesPerPixel;
    if decoder.count as int != numberOfSegments {
      return Failure(UnexpectedSegmentCount);
    }
    ghost var init := segment[..];
    ghost var done: seq<seq<uint8>> := [];
    SegmentsBegin(rle, g, init, decoder);
    var s := 0;
    while s < numberOfSegments
      invariant 0 <= s <= numberOfSegments && |done| == s
      invariant FrameSegments(rle, g, init) == Prefixed(done, SegmentsAfter(decoder, segment[..], s, numberOfSegments))
      invariant segment[..] == LastBuffer(done, init)
      invariant forall j :: 0 <= j < s ==> |done[j]| == segment.Length
      invariant Scattered(frameData[..], g, rev, done, s, 0)
    {
      var res;
      res, done := DecodeStep(decoder, g, rev, segment, frameData, s, done);
      if res.Failure? {
        return Failure(res.error);
      }
      s := s + 1;
    }
    SegmentsEnd(decoder, segment[..], s, done);
    ScatterDone(frameData[..], g, rev, done);
    r := Success(());
  }

  /** `DecodeSegment(s, segment)` followed by the scatter loop of segment `s`. */
  method DecodeStep(decoder: RleDecoder, g: Geometry, rev: bool, segment: array<uint8>, frameData: array<uint8>,
                    s: nat, ghost done: seq<seq<uint8>>)
    returns (res: Result<(), DecodeError>, ghost done': seq<seq<uint8>>)
    requires |decoder.offsets| == 15 && s < SegmentCount(g) && |done| == s
    requires segment.Length == SegmentLength(g) && frameData.Length == FrameSize(g) && segment != frameData
    requires forall j :: 0 <= j < s ==> |done[j]| == segment.Length
    requires Scattered(frameData[..], g, rev, done, s, 0)
    modifies segment, frameData
    ensures res.Failure? ==> SegmentsAfter(decoder, old(segment[..]), s, SegmentCount(g)) == Failure(res.error)
    ensures res.Success? ==> done' == done + [segment[..]]
    ensures res.Success? ==> Prefixed(done, SegmentsAfter(decoder, old(segment[..]), s, SegmentCount(g)))
                             == Prefixed(done', SegmentsAfter(decoder, segment[..], s + 1, SegmentCount(g)))
    ensures res.Success? ==> Scattered(frameData[..], g, rev, done', s + 1, 0)
  {
    ghost var before := segment[..];
    res := DecodeSegment(decoder, s, segment);
    if res.Failure? {
      SegmentsAfterFails(decoder, before, s, SegmentCount(g), res.error);
      return res, done;
    }
    SegmentsAfterStep(decoder, before, s, SegmentCount(g), segment[..], done);
    ScatteredExtend(frameData[..], g, rev, done, segment[..], s);
    done' := done + [segment[..]];
    ScatterSegment(segment, frameData, g, rev, s, done');
  }

  /** The scatter loop: `frameData[pos] = segment[p]` for every pixel. */
  method ScatterSegment(segment: array<uint8>, frameData: array<uint8>, g: Geometry, rev: bool, s: nat, ghost bufs: seq<seq<uint8>>)
    requires frameData.Length == FrameSize(g) && segment != frameData && segment.Length >= PixelCount(g)
    requires s < SegmentCount(g) && |bufs| == s + 1 && bufs[s] == segment[..]
    requires Scattered(frameData[..], g, rev, bufs, s, 0)
    modifies frameData
    ensures Scattered(frameData[..], g, rev, bufs, s + 1, 0)
  {
    var pos, offset := SegmentStart(g, rev, s);
    var p := 0;
    while p < PixelCount(g)
      invariant 0 <= p <= PixelCount(g) && offset == Stride(g)
      invariant pos == Position(g, rev, s, p)
      invariant Scattered(frameData[..], g, rev, bufs, s, p)
    {
      ScatterStep(frameData[..], g, rev, bufs, s, p);
      frameData[pos] := segment[p];
      PositionNext(g, rev, s, p);
      pos := pos + offset;
      p := p + 1;
    }
    ScatterNext(frameData[..], g, rev, bufs, s);
  }

  /** The frames `DcmRleCodec.Decode` adds for the compressed frames `rles`
      when the segment buffer starts as `buf`, and the exception that ends
      the loop, if any. The segment buffer carries over from frame to
      frame. */
  ghost function FramesDecoded(rles: seq<seq<uint8>>, g: Geometry, rev: bool, buf: seq<uint8>): (r: (seq<seq<uint8>>, Option<DecodeError>))
    requires |buf| >= PixelCount(g)
    ensures |r.0| <= |rles| && (r.1.None? <==> |r.0| == |rles|)
    ensures forall i :: 0 <= i < |r.0| ==> |r.0[i]| == FrameSize(g)
    decreases |rles|
  {
    if |rles| == 0 then ([], None)
    else match FrameSegments(rles[0], g, buf)
      case Failure(e) => ([], Some(e))
      case Success(bufs) =>
        var rest := FramesDecoded(rles[1..], g, rev, LastBuffer(bufs, buf));
        ([Assemble(g, rev, bufs)] + rest.0, rest.1)
  }

  /** `DcmRleCodec.Decode`: one segment buffer of `segmentLength` bytes and
      one frame buffer of `UncompressedFrameSize` bytes serve every frame;
      `AddFrame` copies the frame buffer. */
  method DecodePixelData(rles: seq<seq<uint8>>, g: Geometry, parameters: Option<CodecParameters>)
    returns (added: seq<seq<uint8>>, err: Option<DecodeError>)
    ensures (added, err) == FramesDecoded(rles, g, ReverseByteOrder(parameters), seq(SegmentLength(g), _ => 0))
  {
    var rev := ReverseByteOrder(parameters);
    var segment := new uint8[SegmentLength(g)](_ => 0);
    var frameData := new uint8[FrameSize(g)](_ => 0);
    ghost var init := segment[..];
    assert init == seq(SegmentLength(g), _ => 0);
    added := [];
    var i := 0;
    assert rles[i..] == rles;
    assert added + FramesDecoded(rles, g, rev, init).0 == FramesDecoded(rles, g, rev, init).0;
    while i < |rles|
      invariant 0 <= i <= |rles| && |segment[..]| == SegmentLength(g)
      invariant FramesDecoded(rles, g, rev, init)
        == (added + FramesDecoded(rles[i..], g, rev, segment[..]).0, FramesDecoded(rles[i..], g, rev, segment[..]).1)
    {
      ghost var buf := segment[..];
      var r := DecodeFrame(rles[i], g, rev, segment, frameData);
      FramesDecodedStep(rles[i..], g, rev, buf, added);
      if r.Failure? {
        return added, Some(r.error);
      }
      assert rles[i..][1..] == rles[i + 1..];
      added := added + [frameData[..]];
      i := i + 1;
    }
    assert FramesDecoded(rles[i..], g, rev, segment[..]) == ([], None);
    assert added + [] == added;
    err := None;
  }

  /** One frame of `FramesDecoded`, taken off the front. */
  lemma FramesDecodedStep(rles: seq<seq<uint8>>, g: Geometry, rev: bool, buf: seq<uint8>, added: seq<seq<uint8>>)
    requires |rles| > 0 && |buf| >= PixelCount(g)
    ensures FrameSegments(rles[0], g, buf).Failure? ==>
      (added + FramesDecoded(rles, g, rev, buf).0, FramesDecoded(rles, g, rev, buf).1)
      == (added, Some(FrameSegments(rles[0], g, buf).error))
    ensures FrameSegments(rles[0], g, buf).Success? ==>
      var bufs := FrameSegments(rles[0], g, buf).value;
      var rest := FramesDecoded(rles[1..], g, rev, LastBuffer(bufs, buf));
      (added + FramesDecoded(rles, g, rev, buf).0, FramesDecoded(rles, g, rev, buf).1)
      == ((added + [Assemble(g, rev, bufs)]) + rest.0, rest.1)
  {
    if FrameSegments(rles[0], g, buf).Success? {
      var bufs := FrameSegments(rles[0], g, buf).value;
      var rest := FramesDecoded(rles[1..], g, rev, LastBuffer(bufs, buf));
      Associate(added, [Assemble(g, rev, bufs)], rest.0);
    } else {
      assert added + [] == added;
    }
  }

  // ---------------------------------------------------------------------
  // Round trip
  // ---------------------------------------------------------------------

  /** Buffer `t - s` of `bufs` holds pixel `p` of segment `t`. */
  ghost predicate HoldsOne(bufs: seq<seq<uint8>>, frame: seq<uint8>, g: Geometry, rev: bool, s: nat, t: nat, p: nat) {
    && s <= t < s + |bufs| && t < SegmentCount(g)
    && p < |bufs[t - s]| && Position(g, rev, t, p) < |frame|
    && bufs[t - s][p] == frame[Position(g, rev, t, p)]
  }

  /** Buffer `t - s` of `bufs` holds, in front, the pixels of segment `t`. */
  ghost predicate HoldsPixels(bufs: seq<seq<uint8>>, frame: seq<uint8>, g: Geometry, rev: bool, s: nat) {
    s + |bufs| <= SegmentCount(g)
    && forall t, p :: s <= t < s + |bufs| && 0 <= p < PixelCount(g) ==> HoldsOne(bufs, frame, g, rev, s, t, p)
  }

  lemma HoldsPixelsCons(buf: seq<uint8>, rest: seq<seq<uint8>>, frame: seq<uint8>, g: Geometry, rev: bool, s: nat)
    requires s < SegmentCount(g) && |buf| >= PixelCount(g)
    requires forall p :: 0 <= p < PixelCount(g) ==> Position(g, rev, s, p) < |frame| && buf[p] == frame[Position(g, rev, s, p)]
    requires HoldsPixels(rest, frame, g, rev, s + 1)
    ensures HoldsPixels([buf] + rest, frame, g, rev, s)
  {
    var bufs := [buf] + rest;
    forall t, p | s <= t < s + |bufs| && 0 <= p < PixelCount(g)
      ensures HoldsOne(bufs, frame, g, rev, s, t, p)
    {
      if t == s {
        assert bufs[t - s] == buf;
        assert buf[p] == frame[Position(g, rev, s, p)];
      } else {
        assert HoldsOne(rest, frame, g, rev, s + 1, t, p);
        assert bufs[t - s] == rest[t - (s + 1)];
      }
    }
  }

  /** Segments that decode to the gathered bytes of a frame leave each
      buffer holding its segment's pixels in front. */
  lemma {:induction false} SegmentsAfterGathered(d: RleDecoder, frame: seq<uint8>, g: Geometry, rev: bool, buf: seq<uint8>, s: nat)
    requires |d.offsets| == 15 && s <= SegmentCount(g) && |buf| >= PixelCount(g)
    requires ReadsInFrame(g, rev, PixelCount(g), |frame|)
    requires forall j :: s <= j < SegmentCount(g) ==> SegmentOutput(d, j) == Success(Gather(frame, g, rev, j, PixelCount(g)))
    ensures SegmentsAfter(d, buf, s, SegmentCount(g)).Success?
    ensures HoldsPixels(SegmentsAfter(d, buf, s, SegmentCount(g)).value, frame, g, rev, s)
    decreases SegmentCount(g) - s
  {
    var n := SegmentCount(g);
    if s < n {
      var out := Gather(frame, g, rev, s, PixelCount(g));
      var buf' := out + buf[|out|..];
      GatheredInFront(frame, g, rev, s, buf, buf');
      assert forall j :: s + 1 <= j < n ==> SegmentOutput(d, j) == Success(Gather(frame, g, rev, j, PixelCount(g)));
      SegmentsAfterGathered(d, frame, g, rev, buf', s + 1);
      var rest := SegmentsAfter(d, buf', s + 1, n).value;
      assert SegmentsAfter(d, buf, s, n).value == [buf'] + rest;
      HoldsPixelsCons(buf', rest, frame, g, rev, s);
    }
  }

  /** The gathered bytes of segment `s` copied over the front of `buf`. */
  lemma GatheredInFront(frame: seq<uint8>, g: Geometry, rev: bool, s: nat, buf: seq<uint8>, buf': seq<uint8>)
    requires s < SegmentCount(g) && |buf| >= PixelCount(g)
    requires ReadsInFrame(g, rev, PixelCount(g), |frame|)
    requires buf' == Gather(frame, g, rev, s, PixelCount(g)) + buf[PixelCount(g)..]
    ensures |buf'| == |buf|
    ensures forall p :: 0 <= p < PixelCount(g) ==> Position(g, rev, s, p) < |frame| && buf'[p] == frame[Position(g, rev, s, p)]
  {
  }

  /** Decoding a frame encoded with the pixel-count loop gives the frame
      back, whatever the segment buffer held before, as long as the
      compressed frame is shorter than 2^31 bytes so its offsets read back
      as non-negative `int`s. */
  lemma FrameRoundTrip(frame: seq<uint8>, rle: seq<uint8>, g: Geometry, rev: bool, buf: seq<uint8>)
    requires |frame| == FrameSize(g) && Encodes(rle, frame, g, rev, PixelCount(g))
    requires |rle| < TWO_31 && |buf| >= PixelCount(g)
    ensures FrameSegments(rle, g, buf).Success?
    ensures Assemble(g, rev, FrameSegments(rle, g, buf).value) == frame
  {
    var n := SegmentCount(g);
    var d := ReadHeader(rle).value;
    assert d.count as int == n;
    forall j | 0 <= j < n
      ensures SegmentOutput(d, j) == Success(Gather(frame, g, rev, j, PixelCount(g)))
    {
      SegmentOutputDecodes(rle, j, n, Gather(frame, g, rev, j, PixelCount(g)));
    }
    SegmentsAfterGathered(d, frame, g, rev, buf, 0);
    var bufs := FrameSegments(rle, g, buf).value;
    var a := Assemble(g, rev, bufs);
    forall k | 0 <= k < |frame|
      ensures a[k] == frame[k]
    {
      PositionCovers(g, rev, k);
      assert HoldsOne(bufs, frame, g, rev, 0, SegmentOf(g, rev, k), PixelOf(g, rev, k));
    }
  }

  /** Decoding what `EncodePixelData` added gives back every frame. */
  lemma {:induction false} FramesRoundTrip(frames: seq<seq<uint8>>, rles: seq<seq<uint8>>, g: Geometry, rev: bool, buf: seq<uint8>)
    requires |frames| == |rles| && |buf| >= PixelCount(g)
    requires forall i :: 0 <= i < |rles| ==>
      |frames[i]| == FrameSize(g) && Encodes(rles[i], frames[i], g, rev, PixelCount(g)) && |rles[i]| < TWO_31
    ensures FramesDecoded(rles, g, rev, buf) == (frames, None)
    decreases |rles|
  {
    if |rles| > 0 {
      FrameRoundTrip(frames[0], rles[0], g, rev, buf);
      var bufs := FrameSegments(rles[0], g, buf).value;
      var next := LastBuffer(bufs, buf);
      assert |next| == |buf| by {
        if |bufs| > 0 {
          assert next == bufs[|bufs| - 1];
        }
      }
      var frames', rles' := frames[1..], rles[1..];
      forall i | 0 <= i < |rles'|
        ensures |frames'[i]| == FrameSize(g) && Encodes(rles'[i], frames'[i], g, rev, PixelCount(g)) && |rles'[i]| < TWO_31
      {
        assert frames'[i] == frames[i + 1] && rles'[i] == rles[i + 1];
      }
      FramesRoundTrip(frames', rles', g, rev, next);
      assert FramesDecoded(rles, g, rev, buf) == ([frames[0]] + frames', None);
      assert frames == [frames[0]] + frames';
    }
  }
}
