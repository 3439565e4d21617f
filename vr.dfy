/** The value representations of Dicom/Data/DcmVR.cs (DICOM PS3.5 section 6.2):
    one constant per VR code with its flags, the list of registered VRs, and
    the lookups from a two-letter code or a 16-bit word. */
module VRs {
  import opened Ints

  datatype VrRestriction = NotApplicable | Fixed | Maximum | Any

  datatype DcmVR = DcmVR(
    vr: string,
    desc: string,
    isString: bool,
    isEncodedString: bool,
    is16BitLength: bool,
    padding: uint8,
    maxLength: nat,
    unitSize: nat,
    restriction: VrRestriction)

  const PadSpace: uint8 := 0x20
  const PadZero: uint8 := 0

  /** The constructor. The padding argument is ignored: every VR pads with 0. */
  function MakeVR(value: string, desc: string, isString: bool, isEncodedString: bool, is16BitLength: bool,
                  padding: uint8, maxLength: nat, unitSize: nat, restriction: VrRestriction): (v: DcmVR)
    ensures v.vr == value && v.desc == desc && v.maxLength == maxLength && v.unitSize == unitSize
    ensures v.isString == isString && v.isEncodedString == isEncodedString && v.is16BitLength == is16BitLength
    ensures v.restriction == restriction
    ensures v.padding == PadZero
  {
    DcmVR(value, desc, isString, isEncodedString, is16BitLength, PadZero, maxLength, unitSize, restriction)
  }

  const NONE := MakeVR("NONE", "No VR", false, false, false, PadZero, 0, 0, NotApplicable)
  const AE := MakeVR("AE", "Application Entity", true, false, true, PadSpace, 16, 1, Maximum)
  const AS := MakeVR("AS", "Age String", true, false, true, PadSpace, 4, 1, Fixed)
  const AT := MakeVR("AT", "Attribute Tag", false, false, true, PadZero, 4, 4, Fixed)
  const CS := MakeVR("CS", "Code String", true, false, true, PadSpace, 16, 1, Maximum)
  const DA := MakeVR("DA", "Date", true, false, true, PadSpace, 8, 1, Fixed)
  const DS := MakeVR("DS", "Decimal String", true, false, true, PadSpace, 16, 1, Maximum)
  const DT := MakeVR("DT", "Date Time", true, false, true, PadSpace, 26, 1, Maximum)
  const FD := MakeVR("FD", "Floating Point Double", false, false, true, PadZero, 8, 8, Fixed)
  const FL := MakeVR("FL", "Floating Point Single", false, false, true, PadZero, 4, 4, Fixed)
  const IS := MakeVR("IS", "Integer String", true, false, true, PadSpace, 12, 1, Maximum)
  const LO := MakeVR("LO", "Long String", true, true, true, PadSpace, 64, 1, Maximum)
  const LT := MakeVR("LT", "Long Text", true, true, true, PadSpace, 10240, 1, Maximum)
  const OB := MakeVR("OB", "Other Byte", false, false, false, PadZero, 0, 1, Any)
  const OF := MakeVR("OF", "Other Float", false, false, false, PadZero, 0, 4, Any)
  const OW := MakeVR("OW", "Other Word", false, false, false, PadZero, 0, 2, Any)
  const PN := MakeVR("PN", "Person Name", true, true, true, PadSpace, 64, 1, Maximum)
  const SH := MakeVR("SH", "Short String", true, true, true, PadSpace, 16, 1, Maximum)
  const SL := MakeVR("SL", "Signed Long", false, false, true, PadZero, 4, 4, Fixed)
  const SQ := MakeVR("SQ", "Sequence of Items", false, false, false, PadZero, 0, 0, NotApplicable)
  const SS := MakeVR("SS", "Signed Short", false, false, true, PadZero, 2, 2, Fixed)
  const ST := MakeVR("ST", "Short Text", false, true, true, PadSpace, 1024, 1, Maximum)
  const TM := MakeVR("TM", "Time", true, false, true, PadSpace, 16, 1, Maximum)
  const UI := MakeVR("UI", "Unique Identifier", true, false, true, PadSpace, 64, 1, Maximum)
  const UL := MakeVR("UL", "Unsigned Long", false, false, true, PadZero, 4, 4, Fixed)
  const UN := MakeVR("UN", "Unknown", false, false, false, PadZero, 0, 1, Any)
  const US := MakeVR("US", "Unsigned Short", false, false, true, PadZero, 2, 2, Fixed)
  const UT := MakeVR("UT", "Unlimited Text", true, true, false, PadSpace, 0, 1, Any)

  /** `DcmVRs.Entries`: every VR except NONE, in registration order. */
  const Entries: seq<DcmVR> := [AE, AS, AT, CS, DA, DS, DT, FD, FL, IS, LO, LT, OB, OF, OW,
                                PN, SH, SL, SQ, SS, ST, TM, UI, UL, UN, US, UT]

  /** `DcmVRs.Lookup(string)`: the VR with that code, UN for anything else. */
  function Lookup(s: string): (v: DcmVR)
  {
    if s == "NONE" then NONE
    else if |s| == 2 then assert s == [s[0], s[1]]; LookupPair(s[0], s[1])
    else UN
  }

  /** The two-letter arm of the switch, one letter at a time. */
  function LookupPair(a: char, b: char): (v: DcmVR)
  {
    match a
    case 'A' =>
      (match b
      case 'E' => AE
      case 'S' => AS
      case 'T' => AT
      case _ => UN)
    case 'C' =>
      (match b
      case 'S' => CS
      case _ => UN)
    case 'D' =>
      (match b
      case 'A' => DA
      case 'S' => DS
      case 'T' => DT
      case _ => UN)
    case 'F' =>
      (match b
      case 'D' => FD
      case 'L' => FL
      case _ => UN)
    case 'I' =>
      (match b
      case 'S' => IS
      case _ => UN)
    case 'L' =>
      (match b
      case 'O' => LO
      case 'T' => LT
      case _ => UN)
    case 'O' =>
      (match b
      case 'B' => OB
      case 'F' => OF
      case 'W' => OW
      case _ => UN)
    case 'P' =>
      (match b
      case 'N' => PN
      case _ => UN)
    case 'S' =>
      (match b
      case 'H' => SH
      case 'L' => SL
      case 'Q' => SQ
      case 'S' => SS
      case 'T' => ST
      case _ => UN)
    case 'T' =>
      (match b
      case 'M' => TM
      case _ => UN)
    case 'U' =>
      (match b
      case 'I' => UI
      case 'L' => UL
      case 'N' => UN
      case 'S' => US
      case 'T' => UT
      case _ => UN)
    case _ => UN
  }

  /** Whatever the lookup finds carries the code that was looked up, and it is
      NONE or a registered VR. */
  lemma LookupPairSound(a: char, b: char)
    ensures LookupPair(a, b) == UN || LookupPair(a, b).vr == [a, b]
    ensures LookupPair(a, b) in Entries
  {
  }

  lemma LookupSound(s: string)
    ensures Lookup(s) == UN || Lookup(s).vr == s
    ensures Lookup(s) == NONE || Lookup(s) in Entries
  {
    if s != "NONE" && |s| == 2 {
      LookupPairSound(s[0], s[1]);
      assert s == [s[0], s[1]];
    }
  }

  lemma LookupEntriesLow()
    ensures forall i :: 0 <= i < 9 ==> Lookup(Entries[i].vr) == Entries[i]
  {
  }

  lemma LookupEntriesMiddle()
    ensures forall i :: 9 <= i < 18 ==> Lookup(Entries[i].vr) == Entries[i]
  {
  }

  lemma LookupEntriesHigh()
    ensures forall i :: 18 <= i < 27 ==> Lookup(Entries[i].vr) == Entries[i]
  {
  }

  /** Looking up the code of any registered VR, or "NONE", gives back that VR. */
  lemma LookupEntries()
    ensures Lookup("NONE") == NONE
    ensures forall i :: 0 <= i < |Entries| ==> Lookup(Entries[i].vr) == Entries[i]
  {
    LookupEntriesLow();
    LookupEntriesMiddle();
    LookupEntriesHigh();
  }

  /** A code that is neither "NONE" nor a registered code falls back to UN. */
  lemma LookupUnknown(s: string)
    requires s != "NONE"
    requires forall i :: 0 <= i < |Entries| ==> Entries[i].vr != s
    ensures Lookup(s) == UN
  {
    LookupSound(s);
  }

  /** Every registered code is two capital letters. */
  lemma EntryCodesAreLetters()
    ensures forall i :: 0 <= i < |Entries| ==>
      |Entries[i].vr| == 2 && 'A' <= Entries[i].vr[0] <= 'Z' && 'A' <= Entries[i].vr[1] <= 'Z'
  {
  }

  /** No VR keeps the padding it was declared with: all pad with 0. */
  lemma PaddingAlwaysZero()
    ensures NONE.padding == 0
    ensures forall i :: 0 <= i < |Entries| ==> Entries[i].padding == 0
  {
  }

  /** The VRs whose explicit-VR header carries a 4-byte length
      (DICOM PS3.5 section 7.1.2). */
  const LongLengthCodes: set<string> := {"NONE", "OB", "OF", "OW", "SQ", "UN", "UT"}

  lemma LengthFieldWidths()
    ensures !NONE.is16BitLength
    ensures forall i :: 0 <= i < |Entries| ==> (!Entries[i].is16BitLength <==> Entries[i].vr in LongLengthCodes)
  {
  }

  /** The `_hash` field the constructor computes: the first character in the
      high byte, the second in the low byte. */
  function Hash(v: DcmVR): (h: int)
    requires |v.vr| >= 2 && v.vr[1] as int < 0x100
    ensures h / 0x100 == v.vr[0] as int && h % 0x100 == v.vr[1] as int
  {
    (v.vr[0] as int) * 0x100 + v.vr[1] as int
  }

  function ToString(v: DcmVR): (s: string)
    ensures |s| == |v.vr| + 3 + |v.desc|
    ensures s[..|v.vr|] == v.vr && s[|v.vr| + 3..] == v.desc
  {
    v.vr + " - " + v.desc
  }

  /** A UTF-16 code unit as a Dafny character. Every unit from 0xD800 up
      (the surrogate halves, which are not Dafny characters, and the units
      above them) becomes U+FFFD. None of these is an ASCII letter, so none
      is part of a VR code, and the lookup gives the same answer for all. */
  function UnitChar(u: uint16): (c: char)
    ensures u < 0xD800 ==> c as int == u
    ensures c as int >= 0x80 <==> u >= 0x80
  {
    if u < 0xD800 then u as char else '�'
  }

  /** `DcmVRs.Lookup(ushort)` as written: the second character is `(char)vr`,
      the whole word and not its low byte. */
  function LookupWordAsWritten(w: uint16): (v: DcmVR)
  {
    if w == 0 then NONE else Lookup([UnitChar(w / 0x100), UnitChar(w)])
  }

  /** As written, no non-zero word finds its VR: the second character is a
      letter only when the word is below 0x100, and then the first is NUL. */
  lemma LookupWordAsWrittenIsUnknown(w: uint16)
    requires w != 0
    ensures LookupWordAsWritten(w) == UN
  {
    var s := [UnitChar(w / 0x100), UnitChar(w)];
    LookupSound(s);
    EntryCodesAreLetters();
  }

  /** The 16-bit word `AE` is stored as in a little-endian explicit-VR header read
      big-endian: 0x4145. As written it looks up as UN. */
  lemma LookupWordCounterexample()
    ensures Hash(AE) == 0x4145
    ensures LookupWordAsWritten(0x4145) == UN
  {
    LookupWordAsWrittenIsUnknown(0x4145);
  }

  /** The intended `Lookup(ushort)`: 0 is NONE, otherwise the characters
      `(char)(vr >> 8)` and `(char)(vr & 0xFF)`. */
  function LookupWord(w: uint16): DcmVR
  {
    if w == 0 then NONE else Lookup([(w / 0x100) as char, (w % 0x100) as char])
  }

  /** The corrected lookup inverts `Hash` on every registered VR. */
  lemma LookupWordInvertsHash()
    ensures forall i :: 0 <= i < |Entries| ==> LookupWord(Hash(Entries[i])) == Entries[i]
  {
    LookupEntries();
    EntryCodesAreLetters();
    forall i | 0 <= i < |Entries|
      ensures LookupWord(Hash(Entries[i])) == Entries[i]
    {
      var e := Entries[i];
      var h := Hash(e);
      assert h != 0;
      assert [(h / 0x100) as char, (h % 0x100) as char] == e.vr;
    }
  }
}
