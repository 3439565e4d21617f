/** The JPEG codec wrapper of the `Dicom.Jpeg` assembly. It does not code
    ISO/IEC 10918-1 itself: it normalises the parameters, picks one codec
    from the old BitsStored, runs it over every frame in order, and then
    updates the new pixel data's lossy flag, compression method and
    photometric interpretation. The codecs and their selection are
    parameters here. */
module JpegCodec {
  import opened Ints
  import opened Wrappers
  import TS = TransferSyntaxes
  import Text

  /** Only whether the codec's mode is lossless matters to the wrapper. */
  datatype JpegMode = Lossless | Lossy

  /** `JpegSampleFactor`: 4:4:4, 4:2:2, or anything else. */
  datatype SampleFactor = SF444 | SF422 | OtherFactor

  /** `DcmJpegParameters`: the two settings the wrapper reads, and the
      codec's own settings, passed through untouched. */
  datatype JpegParameters = JpegParameters(
    sampleFactor: SampleFactor, convertColorspaceToRGB: bool,
    quality: int, smoothingFactor: int, predictor: int, pointTransform: int)

  /** The parameters a caller hands in: none, exactly `DcmJpegParameters`,
      or some other kind (a derived class included, since the type is
      compared exactly). */
  datatype CodecParameters = NoParameters | Jpeg(p: JpegParameters) | OtherKind

  /** The parameters used: the caller's when they are JPEG parameters,
      the defaults otherwise. */
  function Normalize(given: CodecParameters, defaults: JpegParameters): (p: JpegParameters)
    ensures given.Jpeg? ==> p == given.p
    ensures !given.Jpeg? ==> p == defaults
  {
    if given.Jpeg? then given.p else defaults
  }

  /** Normalising parameters that were already used changes nothing,
      whatever the defaults. */
  lemma NormalizeIdempotent(given: CodecParameters, defaults: JpegParameters, other: JpegParameters)
    ensures Normalize(Jpeg(Normalize(given, defaults)), other) == Normalize(given, defaults)
  {
  }

  /** A codec: its mode, and what it produces for one frame (by index)
      when encoding or decoding, or the message it fails with. */
  datatype Codec = Codec(
    mode: JpegMode,
    encode: (nat, JpegParameters) -> Result<seq<uint8>, string>,
    decode: (nat, JpegParameters) -> Result<seq<uint8>, string>)

  /** What the wrapper reads of the old pixel data. */
  datatype Source = Source(numberOfFrames: int32, bitsStored: uint16, photometricInterpretation: string)

  /** The frame loop over frames 0 .. count - 1: the frames produced before
      the first failure, and that failure. */
  datatype Run = Run(produced: seq<seq<uint8>>, failure: Option<string>)

  function RunFrames(step: (nat, JpegParameters) -> Result<seq<uint8>, string>, p: JpegParameters, count: nat): (r: Run)
    ensures |r.produced| <= count
    ensures r.failure.None? ==> |r.produced| == count
    decreases count
  {
    if count == 0 then Run([], None)
    else
      var before := RunFrames(step, p, count - 1);
      if before.failure.Some? then before
      else
        var out := step(count - 1, p);
        if out.Failure? then Run(before.produced, Some(out.error))
        else Run(before.produced + [out.value], None)
  }

  /** When every frame succeeds, the loop produces every frame, in order. */
  lemma {:induction false} RunAllFrames(step: (nat, JpegParameters) -> Result<seq<uint8>, string>, p: JpegParameters, count: nat)
    requires forall i: nat :: i < count ==> step(i, p).Success?
    ensures RunFrames(step, p, count).failure.None?
    ensures forall i :: 0 <= i < count ==> RunFrames(step, p, count).produced[i] == step(i, p).value
    decreases count
  {
    if count > 0 {
      RunAllFrames(step, p, count - 1);
    }
  }

  /** The loop stops at the first frame that fails: the frames before it
      are kept and its message is the result. */
  lemma {:induction false} RunStopsAtFirstFailure(step: (nat, JpegParameters) -> Result<seq<uint8>, string>, p: JpegParameters, count: nat, k: nat)
    requires k < count && step(k, p).Failure?
    requires forall i: nat :: i < k ==> step(i, p).Success?
    ensures RunFrames(step, p, count).failure == Some(step(k, p).error)
    ensures |RunFrames(step, p, count).produced| == k
    decreases count
  {
    if count - 1 > k {
      RunStopsAtFirstFailure(step, p, count - 1, k);
    } else {
      RunAllFrames(step, p, k);
    }
  }

  /** The photometric interpretation after encoding: RGB coded lossily
      becomes YBR_FULL_422 for 4:2:2 and YBR_FULL for 4:4:4; in every other
      case the new pixel data keeps what it had. */
  function EncodedPhotometric(oldPI: string, mode: JpegMode, sf: SampleFactor, current: string): (pi: string)
    ensures oldPI == "RGB" && mode == Lossy && sf == SF422 ==> pi == "YBR_FULL_422"
    ensures oldPI == "RGB" && mode == Lossy && sf == SF444 ==> pi == "YBR_FULL"
    ensures oldPI != "RGB" || mode == Lossless || sf == OtherFactor ==> pi == current
  {
    if oldPI == "RGB" && mode != Lossless then
      if sf == SF422 then "YBR_FULL_422" else if sf == SF444 then "YBR_FULL" else current
    else current
  }

  /** The photometric interpretation after decoding: a YBR_ colour space
      decoded lossily with ConvertColorspaceToRGB becomes RGB; in every
      other case the new pixel data keeps what it had. */
  function DecodedPhotometric(oldPI: string, convert: bool, mode: JpegMode, current: string): (pi: string)
    ensures Text.StartsWith(oldPI, "YBR_") && convert && mode == Lossy ==> pi == "RGB"
    ensures !Text.StartsWith(oldPI, "YBR_") || !convert || mode == Lossless ==> pi == current
  {
    if Text.StartsWith(oldPI, "YBR_") && convert && mode != Lossless then "RGB" else current
  }

  /** RGB coded lossily with 4:2:2 or 4:4:4 and decoded with conversion
      is RGB again. */
  lemma PhotometricRoundTrip(mode: JpegMode, sf: SampleFactor, current: string, later: string)
    requires mode == Lossy && sf != OtherFactor
    ensures DecodedPhotometric(EncodedPhotometric("RGB", mode, sf, current), true, mode, later) == "RGB"
  {
    var coded := EncodedPhotometric("RGB", mode, sf, current);
    assert coded[..4] == "YBR_";
  }

  /** A lossless codec leaves the photometric interpretation alone both
      ways. */
  lemma LosslessKeepsPhotometric(oldPI: string, sf: SampleFactor, convert: bool, current: string, later: string)
    ensures EncodedPhotometric(oldPI, Lossless, sf, current) == current
    ensures DecodedPhotometric(oldPI, convert, Lossless, later) == later
  {
  }

  /** The part of the new pixel data the wrapper writes. */
  class Target {
    var frames: seq<seq<uint8>>
    var photometricInterpretation: string
    var isLossy: bool
    var lossyCompressionMethod: string

    constructor (pi: string)
      ensures frames == [] && photometricInterpretation == pi && !isLossy && lossyCompressionMethod == ""
    {
      frames, photometricInterpretation, isLossy, lossyCompressionMethod := [], pi, false, "";
    }

    /** One frame added by the codec. */
    method AddFrame(data: seq<uint8>)
      modifies this
      ensures frames == old(frames) + [data]
      ensures photometricInterpretation == old(photometricInterpretation)
      ensures isLossy == old(isLossy) && lossyCompressionMethod == old(lossyCompressionMethod)
    {
      frames := frames + [data];
    }
  }

  /** The frame loop: `step` for frames 0 .. count - 1, each result added
      to the target, stopping at the first failure. */
  method RunLoop(step: (nat, JpegParameters) -> Result<seq<uint8>, string>, p: JpegParameters, count: int32, target: Target)
    returns (failure: Option<string>)
    modifies target
    ensures var run := RunFrames(step, p, if count < 0 then 0 else count as nat);
      && failure == run.failure
      && target.frames == old(target.frames) + run.produced
    ensures target.photometricInterpretation == old(target.photometricInterpretation)
    ensures target.isLossy == old(target.isLossy) && target.lossyCompressionMethod == old(target.lossyCompressionMethod)
  {
    var frame := 0;
    failure := None;
    while frame < count as int
      invariant 0 <= frame <= if count < 0 then 0 else count as int
      invariant var run := RunFrames(step, p, frame);
        && run.failure.None?
        && target.frames == old(target.frames) + run.produced
      invariant target.photometricInterpretation == old(target.photometricInterpretation)
      invariant target.isLossy == old(target.isLossy) && target.lossyCompressionMethod == old(target.lossyCompressionMethod)
    {
      var out := step(frame, p);
      if out.Failure? {
        failure := Some(out.error);
        StopsHere(step, p, frame, if count < 0 then 0 else count as nat);
        return;
      }
      target.AddFrame(out.value);
      frame := frame + 1;
    }
  }

  /** Once a frame fails, the later frames change nothing. */
  lemma {:induction false} StopsHere(step: (nat, JpegParameters) -> Result<seq<uint8>, string>, p: JpegParameters, k: nat, count: nat)
    requires k < count && RunFrames(step, p, k).failure.None? && step(k, p).Failure?
    ensures RunFrames(step, p, count) == Run(RunFrames(step, p, k).produced, Some(step(k, p).error))
    decreases count
  {
    if count - 1 > k {
      StopsHere(step, p, k, count - 1);
    }
  }

  /** `DcmJpegCodec::Encode`. A failing codec selection or frame ends the
      call with that message, after the frames produced so far. */
  method Encode(source: Source, target: Target, given: CodecParameters, defaults: JpegParameters,
                getCodec: (uint16, JpegParameters) -> Result<Codec, string>)
    returns (r: Result<(), string>)
    modifies target
    ensures var p := Normalize(given, defaults);
      var c := getCodec(source.bitsStored, p);
      if c.Failure? then r == Failure(c.error) && target.frames == old(target.frames)
      else
        var run := RunFrames(c.value.encode, p, if source.numberOfFrames < 0 then 0 else source.numberOfFrames as nat);
        && target.frames == old(target.frames) + run.produced
        && (run.failure.Some? ==> r == Failure(run.failure.value))
        && (run.failure.None? ==> r == Success(()))
        && (run.failure.None? && c.value.mode == Lossy ==> target.isLossy && target.lossyCompressionMethod == "ISO_10918_1")
    ensures var p := Normalize(given, defaults);
      var c := getCodec(source.bitsStored, p);
      r.Success? ==>
        && (c.value.mode == Lossless ==>
              target.isLossy == old(target.isLossy) && target.lossyCompressionMethod == old(target.lossyCompressionMethod))
        && target.photometricInterpretation ==
             EncodedPhotometric(source.photometricInterpretation, c.value.mode, p.sampleFactor, old(target.photometricInterpretation))
    ensures r.Failure? ==>
      && target.photometricInterpretation == old(target.photometricInterpretation)
      && target.isLossy == old(target.isLossy) && target.lossyCompressionMethod == old(target.lossyCompressionMethod)
  {
    var p := Normalize(given, defaults);
    var c := getCodec(source.bitsStored, p);
    if c.Failure? {
      return Failure(c.error);
    }
    var codec := c.value;
    var failure := RunLoop(codec.encode, p, source.numberOfFrames, target);
    if failure.Some? {
      return Failure(failure.value);
    }
    if codec.mode != Lossless {
      target.isLossy := true;
      target.lossyCompressionMethod := "ISO_10918_1";
    }
    if source.photometricInterpretation == "RGB" {
      if codec.mode != Lossless {
        if p.sampleFactor == SF422 {
          target.photometricInterpretation := "YBR_FULL_422";
        } else if p.sampleFactor == SF444 {
          target.photometricInterpretation := "YBR_FULL";
        }
      }
    }
    return Success(());
  }

  /** `DcmJpegCodec::Decode`. */
  method Decode(source: Source, target: Target, given: CodecParameters, defaults: JpegParameters,
                getCodec: (uint16, JpegParameters) -> Result<Codec, string>)
    returns (r: Result<(), string>)
    modifies target
    ensures target.isLossy == old(target.isLossy) && target.lossyCompressionMethod == old(target.lossyCompressionMethod)
    ensures var p := Normalize(given, defaults);
      var c := getCodec(source.bitsStored, p);
      if c.Failure? then r == Failure(c.error) && target.frames == old(target.frames)
      else
        var run := RunFrames(c.value.decode, p, if source.numberOfFrames < 0 then 0 else source.numberOfFrames as nat);
        && target.frames == old(target.frames) + run.produced
        && (run.failure.Some? ==> r == Failure(run.failure.value))
        && (run.failure.None? ==> r == Success(()))
    ensures var p := Normalize(given, defaults);
      var c := getCodec(source.bitsStored, p);
      target.photometricInterpretation ==
        if r.Success? then DecodedPhotometric(source.photometricInterpretation, p.convertColorspaceToRGB, c.value.mode,
                                              old(target.photometricInterpretation))
        else old(target.photometricInterpretation)
  {
    var p := Normalize(given, defaults);
    var c := getCodec(source.bitsStored, p);
    if c.Failure? {
      return Failure(c.error);
    }
    var codec := c.value;
    var failure := RunLoop(codec.decode, p, source.numberOfFrames, target);
    if failure.Some? {
      return Failure(failure.value);
    }
    if Text.StartsWith(source.photometricInterpretation, "YBR_") {
      if p.convertColorspaceToRGB && codec.mode != Lossless {
        target.photometricInterpretation := "RGB";
      }
    }
    return Success(());
  }

  // ------------------------------------------------------ registration

  /** The four codec classes `Register` installs. */
  datatype CodecType = Process1Codec | Process4Codec | Lossless14Codec | Lossless14SV1Codec

  /** `DicomCodec`'s table of codecs by transfer syntax. */
  class CodecRegistry {
    var codecs: map<TS.DcmTS, CodecType>

    constructor ()
      ensures codecs == map[]
    {
      codecs := map[];
    }

    /** `RegisterCodec`: the last registration for a syntax wins. */
    method RegisterCodec(ts: TS.DcmTS, codec: CodecType)
      modifies this
      ensures codecs == old(codecs)[ts := codec]
    {
      codecs := codecs[ts := codec];
    }
  }

  /** The table after `Register`. */
  function Registered(codecs: map<TS.DcmTS, CodecType>): map<TS.DcmTS, CodecType> {
    codecs[TS.JPEGProcess1 := Process1Codec][TS.JPEGProcess2_4 := Process4Codec]
          [TS.JPEGProcess14 := Lossless14Codec][TS.JPEGProcess14SV1 := Lossless14SV1Codec]
  }

  /** `DcmJpegCodec::Register`. */
  method Register(registry: CodecRegistry)
    modifies registry
    ensures registry.codecs == Registered(old(registry.codecs))
  {
    registry.RegisterCodec(TS.JPEGProcess1, Process1Codec);
    registry.RegisterCodec(TS.JPEGProcess2_4, Process4Codec);
    registry.RegisterCodec(TS.JPEGProcess14, Lossless14Codec);
    registry.RegisterCodec(TS.JPEGProcess14SV1, Lossless14SV1Codec);
  }

  const JpegSyntaxes: set<TS.DcmTS> := {TS.JPEGProcess1, TS.JPEGProcess2_4, TS.JPEGProcess14, TS.JPEGProcess14SV1}

  /** The four syntaxes are different, so each gets its own codec class;
      the lossless codecs go exactly to the lossless syntaxes; every other
      entry stays as it was. */
  lemma RegisteredTable(codecs: map<TS.DcmTS, CodecType>)
    ensures Registered(codecs).Keys == codecs.Keys + JpegSyntaxes
    ensures Registered(codecs)[TS.JPEGProcess1] == Process1Codec
    ensures Registered(codecs)[TS.JPEGProcess2_4] == Process4Codec
    ensures Registered(codecs)[TS.JPEGProcess14] == Lossless14Codec
    ensures Registered(codecs)[TS.JPEGProcess14SV1] == Lossless14SV1Codec
    ensures forall ts :: ts in JpegSyntaxes ==>
      (Registered(codecs)[ts] in {Lossless14Codec, Lossless14SV1Codec} <==> !ts.isLossy)
    ensures forall ts :: ts in codecs && ts !in JpegSyntaxes ==> Registered(codecs)[ts] == codecs[ts]
  {
    assert TS.JPEGProcess1.uid != TS.JPEGProcess2_4.uid;
    assert TS.JPEGProcess14.uid != TS.JPEGProcess14SV1.uid;
  }

  /** Registering twice is registering once. */
  lemma RegisterIdempotent(codecs: map<TS.DcmTS, CodecType>)
    ensures Registered(Registered(codecs)) == Registered(codecs)
  {
  }
}
