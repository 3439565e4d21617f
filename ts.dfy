/** The transfer syntaxes of Dicom/Data/DcmTS.cs: a UID with the flags that
    drive encoding (byte order, explicit VR, encapsulation, lossy, deflate),
    the registered list, and the lookup with its fallback for unknown UIDs.
    The UID constants are those of trunk/Dicom/Data/DcmUID.cs, whose names the
    file uses. */
module TransferSyntaxes {
  import UidTrunk
  import EndianIO

  datatype DcmTS = DcmTS(
    uid: UidTrunk.DcmUID,
    isBigEndian: bool,
    isExplicitVR: bool,
    isEncapsulated: bool,
    isLossy: bool,
    isDeflate: bool,
    endian: EndianIO.Endian)

  /** The constructor: the byte order follows the big-endian flag. */
  function MakeTS(uid: UidTrunk.DcmUID, be: bool, evr: bool, encaps: bool, lossy: bool, deflate: bool): (ts: DcmTS)
    ensures ts.uid == uid && ts.isBigEndian == be && ts.isExplicitVR == evr
    ensures ts.isEncapsulated == encaps && ts.isLossy == lossy && ts.isDeflate == deflate
    ensures ts.endian == (if be then EndianIO.Big else EndianIO.Little)
  {
    DcmTS(uid, be, evr, encaps, lossy, deflate, if be then EndianIO.Big else EndianIO.Little)
  }

  /** `ToString`: the description of the UID. */
  function ToString(ts: DcmTS): string
  {
    ts.uid.description
  }

  /** A syntax looked up by a text no registered syntax has prints as the
      description the UID registry gives that text, and as "Unknown UID"
      when the registry does not know it either. */
  lemma ToStringOfLookup(uid: string)
    requires forall i :: 0 <= i < |Entries| ==> Entries[i].uid.uid != uid
    ensures ToString(LookupString(uid)) == UidTrunk.Lookup(uid).description
  {
  }

  /** The argument of `Equals(object)`. */
  datatype Object = TsObject(ts: DcmTS) | UidObject(u: UidTrunk.DcmUID) | StringObject(s: string) | OtherObject

  /** `Equals(object)`: a transfer syntax, a UID or a string with the same UID text. */
  function Equals(ts: DcmTS, obj: Object): (b: bool)
    ensures b <==> ((obj.TsObject? && obj.ts.uid.uid == ts.uid.uid)
                 || (obj.UidObject? && obj.u.uid == ts.uid.uid)
                 || (obj.StringObject? && obj.s == ts.uid.uid))
  {
    match obj
    case TsObject(o) => UidTrunk.Equals(o.uid, UidTrunk.UidObject(ts.uid))
    case UidObject(u) => UidTrunk.Equals(u, UidTrunk.UidObject(ts.uid))
    case StringObject(s) => UidTrunk.Equals(ts.uid, UidTrunk.StringObject(s))
    case OtherObject => false
  }

  const ImplicitVRLittleEndian := MakeTS(UidTrunk.ImplicitVRLittleEndian, false, false, false, false, false)
  const ExplicitVRLittleEndian := MakeTS(UidTrunk.ExplicitVRLittleEndian, false, true, false, false, false)
  const ExplicitVRBigEndian := MakeTS(UidTrunk.ExplicitVRBigEndian, true, true, false, false, false)
  const DeflatedExplicitVRLittleEndian := MakeTS(UidTrunk.DeflatedExplicitVRLittleEndian, false, true, false, false, true)
  const JPEGProcess1 := MakeTS(UidTrunk.JPEGProcess1, false, true, true, true, false)
  const JPEGProcess2_4 := MakeTS(UidTrunk.JPEGProcess2_4, false, true, true, true, false)
  const JPEGProcess3_5Retired := MakeTS(UidTrunk.JPEGProcess3_5Retired, false, true, true, true, false)
  const JPEGProcess6_8Retired := MakeTS(UidTrunk.JPEGProcess6_8Retired, false, true, true, true, false)
  const JPEGProcess7_9Retired := MakeTS(UidTrunk.JPEGProcess7_9Retired, false, true, true, true, false)
  const JPEGProcess10_12Retired := MakeTS(UidTrunk.JPEGProcess10_12Retired, false, true, true, true, false)
  const JPEGProcess11_13Retired := MakeTS(UidTrunk.JPEGProcess11_13Retired, false, true, true, true, false)
  const JPEGProcess14 := MakeTS(UidTrunk.JPEGProcess14, false, true, true, false, false)
  const JPEGProcess15Retired := MakeTS(UidTrunk.JPEGProcess15Retired, false, true, true, false, false)
  const JPEGProcess16_18Retired := MakeTS(UidTrunk.JPEGProcess16_18Retired, false, true, true, true, false)
  const JPEGProcess17_19Retired := MakeTS(UidTrunk.JPEGProcess17_19Retired, false, true, true, true, false)
  const JPEGProcess20_22Retired := MakeTS(UidTrunk.JPEGProcess20_22Retired, false, true, true, true, false)
  const JPEGProcess21_23Retired := MakeTS(UidTrunk.JPEGProcess21_23Retired, false, true, true, true, false)
  const JPEGProcess24_26Retired := MakeTS(UidTrunk.JPEGProcess24_26Retired, false, true, true, true, false)
  const JPEGProcess25_27Retired := MakeTS(UidTrunk.JPEGProcess25_27Retired, false, true, true, true, false)
  const JPEGProcess28Retired := MakeTS(UidTrunk.JPEGProcess28Retired, false, true, true, false, false)
  const JPEGProcess29Retired := MakeTS(UidTrunk.JPEGProcess29Retired, false, true, true, false, false)
  const JPEGProcess14SV1 := MakeTS(UidTrunk.JPEGProcess14SV1, false, true, true, false, false)
  const JPEGLSLossless := MakeTS(UidTrunk.JPEGLSLossless, false, true, true, false, false)
  const JPEGLSNearLossless := MakeTS(UidTrunk.JPEGLSNearLossless, false, true, true, true, false)
  const JPEG2000Lossless := MakeTS(UidTrunk.JPEG2000Lossless, false, true, true, false, false)
  const JPEG2000Lossy := MakeTS(UidTrunk.JPEG2000Lossy, false, true, true, true, false)
  const MPEG2 := MakeTS(UidTrunk.MPEG2, false, true, true, true, false)
  const RLELossless := MakeTS(UidTrunk.RLELossless, false, true, true, false, false)

  /** `DcmTSs.Entries` in registration order. JPEGXRPrivate and PNGPrivate, registered
      first in the source, are not part of this model: their UID text is not in the
      modelled files, and their flags are those of the fallback below. */
  const Entries: seq<DcmTS> := [
    ImplicitVRLittleEndian, ExplicitVRLittleEndian, ExplicitVRBigEndian,
    DeflatedExplicitVRLittleEndian, JPEGProcess1, JPEGProcess2_4, JPEGProcess3_5Retired,
    JPEGProcess6_8Retired, JPEGProcess7_9Retired, JPEGProcess10_12Retired, JPEGProcess11_13Retired,
    JPEGProcess14, JPEGProcess15Retired, JPEGProcess16_18Retired, JPEGProcess17_19Retired,
    JPEGProcess20_22Retired, JPEGProcess21_23Retired, JPEGProcess24_26Retired,
    JPEGProcess25_27Retired, JPEGProcess28Retired, JPEGProcess29Retired, JPEGProcess14SV1,
    JPEGLSLossless, JPEGLSNearLossless, JPEG2000Lossless, JPEG2000Lossy, MPEG2, RLELossless
  ]

  /** The syntax `Lookup` makes up for a UID it does not know: little endian,
      explicit VR, encapsulated, not lossy, not deflated. */
  function Fallback(uid: UidTrunk.DcmUID): DcmTS
  {
    MakeTS(uid, false, true, true, false, false)
  }

  /** The first entry at or after `from` whose UID text is `uid`, or -1. */
  function FindFrom(uid: string, from: nat): (i: int)
    requires from <= |Entries|
    ensures i == -1 || (from <= i < |Entries| && Entries[i].uid.uid == uid)
    ensures i == -1 ==> forall j :: from <= j < |Entries| ==> Entries[j].uid.uid != uid
    ensures i != -1 ==> forall j :: from <= j < i ==> Entries[j].uid.uid != uid
    decreases |Entries| - from
  {
    if from == |Entries| then -1
    else if Equals(Entries[from], UidObject(UidTrunk.DcmUID(uid, "", UidTrunk.Unknown))) then from
    else FindFrom(uid, from + 1)
  }

  /** `DcmTSs.Lookup(DcmUID)`: the first registered syntax equal to the UID, else
      the fallback built around it. */
  function Lookup(uid: UidTrunk.DcmUID): (ts: DcmTS)
    ensures ts.uid.uid == uid.uid
    ensures (exists i :: 0 <= i < |Entries| && Entries[i].uid.uid == uid.uid) ==>
      exists i :: 0 <= i < |Entries| && ts == Entries[i] && forall j :: 0 <= j < i ==> Entries[j].uid.uid != uid.uid
    ensures (forall i :: 0 <= i < |Entries| ==> Entries[i].uid.uid != uid.uid) ==> ts == Fallback(uid)
  {
    var i := FindFrom(uid.uid, 0);
    if i == -1 then Fallback(uid) else Entries[i]
  }

  /** `DcmTSs.Lookup(string)`: look the text up as a UID first. */
  function LookupString(uid: string): (ts: DcmTS)
    ensures Equals(ts, StringObject(uid))
  {
    Lookup(UidTrunk.Lookup(uid))
  }

  /** ExplicitVRBigEndian is the only big-endian entry, and byte order follows the flag. */
  lemma OnlyExplicitVRBigEndianIsBig()
    ensures ExplicitVRBigEndian in Entries && ExplicitVRBigEndian.isBigEndian
    ensures forall i :: 0 <= i < |Entries| && Entries[i].isBigEndian ==> Entries[i] == ExplicitVRBigEndian
    ensures forall i :: 0 <= i < |Entries| ==> (Entries[i].endian == EndianIO.Big <==> Entries[i].isBigEndian)
  {
    assert Entries[2] == ExplicitVRBigEndian;
  }

  /** ImplicitVRLittleEndian is the only implicit-VR entry; only the deflated syntax deflates. */
  lemma ImplicitAndDeflateAreUnique()
    ensures forall i :: 0 <= i < |Entries| && !Entries[i].isExplicitVR ==> Entries[i] == ImplicitVRLittleEndian
    ensures forall i :: 0 <= i < |Entries| && Entries[i].isDeflate ==> Entries[i] == DeflatedExplicitVRLittleEndian
    ensures !ImplicitVRLittleEndian.isExplicitVR && DeflatedExplicitVRLittleEndian.isDeflate
  {
    assert Entries[0] == ImplicitVRLittleEndian;
    assert Entries[3] == DeflatedExplicitVRLittleEndian;
  }

  /** The native syntaxes are not encapsulated; every other entry is. */
  lemma EncapsulatedExactlyFromIndexFour()
    ensures forall i :: 0 <= i < |Entries| ==> (Entries[i].isEncapsulated <==> i >= 4)
    ensures Entries[..4] == [ImplicitVRLittleEndian, ExplicitVRLittleEndian, ExplicitVRBigEndian, DeflatedExplicitVRLittleEndian]
  {
  }

  /** The lossless JPEG processes and RLE are lossless; baseline and extended JPEG are lossy. */
  lemma LossyFlags()
    ensures !JPEGProcess14.isLossy && !JPEGProcess14SV1.isLossy && !RLELossless.isLossy
    ensures JPEGProcess1.isLossy && JPEGProcess2_4.isLossy
    ensures forall i :: 0 <= i < |Entries| && Entries[i].isLossy ==> Entries[i].isEncapsulated
  {
  }
}
