/** `DcmCommand` of Dicom/Network/DcmCommand.cs: the DIMSE command set
    (section 9.3 and Annex E of DICOM PS3.7), a dataset in Implicit VR Little
    Endian whose properties read and write elements of group 0000. The
    class derives from `DcmDataset`; here it owns one. The tag numbers are
    those of the DICOM data dictionary (PS3.7 Annex E), which
    Dicom/Data/DcmTags.cs is not part of this model. */
module Command {
  import opened Wrappers
  import opened Ints
  import D = Dataset
  import VRs
  import TS = TransferSyntaxes

  /** `DcmPriority`. */
  datatype Priority = Low | Medium | High {
    function Code(): (c: uint16)
      ensures c <= 2
    {
      match this
      case Low => 0x0002
      case Medium => 0x0000
      case High => 0x0001
    }
  }

  /** The priority a code names, if any (the cast `(DcmPriority)code`
      of a named value). */
  function PriorityOf(code: uint16): (r: Option<Priority>)
    ensures r.Some? ==> r.value.Code() == code
    ensures r.None? <==> code > 2
  {
    if code == 0x0002 then Some(Low)
    else if code == 0x0000 then Some(Medium)
    else if code == 0x0001 then Some(High)
    else None
  }

  /** Every priority is named by its own code and by no other. */
  lemma PriorityCodes(p: Priority, q: Priority)
    ensures PriorityOf(p.Code()) == Some(p)
    ensures p.Code() == q.Code() ==> p == q
  {
  }

  /** `DcmCommandField`: the request and response codes of the DIMSE
      services. */
  datatype CommandField =
    | CStoreRequest | CStoreResponse | CGetRequest | CGetResponse
    | CFindRequest | CFindResponse | CMoveRequest | CMoveResponse
    | CEchoRequest | CEchoResponse
    | NEventReportRequest | NEventReportResponse | NGetRequest | NGetResponse
    | NSetRequest | NSetResponse | NActionRequest | NActionResponse
    | NCreateRequest | NCreateResponse | NDeleteRequest | NDeleteResponse
    | CCancelRequest
  {
    function Code(): uint16 {
      match this
      case CStoreRequest => 0x0001 case CStoreResponse => 0x8001
      case CGetRequest => 0x0010 case CGetResponse => 0x8010
      case CFindRequest => 0x0020 case CFindResponse => 0x8020
      case CMoveRequest => 0x0021 case CMoveResponse => 0x8021
      case CEchoRequest => 0x0030 case CEchoResponse => 0x8030
      case NEventReportRequest => 0x0100 case NEventReportResponse => 0x8100
      case NGetRequest => 0x0110 case NGetResponse => 0x8110
      case NSetRequest => 0x0120 case NSetResponse => 0x8120
      case NActionRequest => 0x0130 case NActionResponse => 0x8130
      case NCreateRequest => 0x0140 case NCreateResponse => 0x8140
      case NDeleteRequest => 0x0150 case NDeleteResponse => 0x8150
      case CCancelRequest => 0x0FFF
    }

    predicate IsResponse() {
      match this
      case CStoreResponse | CGetResponse | CFindResponse | CMoveResponse | CEchoResponse
         | NEventReportResponse | NGetResponse | NSetResponse | NActionResponse
         | NCreateResponse | NDeleteResponse => true
      case _ => false
    }
  }

  /** The response that answers a request; C-CANCEL has none, and a
      response answers nothing. */
  function ResponseTo(f: CommandField): (r: Option<CommandField>)
    ensures r.Some? ==> !f.IsResponse() && r.value.IsResponse()
    ensures r.None? <==> f.IsResponse() || f == CCancelRequest
  {
    match f
    case CStoreRequest => Some(CStoreResponse)
    case CGetRequest => Some(CGetResponse)
    case CFindRequest => Some(CFindResponse)
    case CMoveRequest => Some(CMoveResponse)
    case CEchoRequest => Some(CEchoResponse)
    case NEventReportRequest => Some(NEventReportResponse)
    case NGetRequest => Some(NGetResponse)
    case NSetRequest => Some(NSetResponse)
    case NActionRequest => Some(NActionResponse)
    case NCreateRequest => Some(NCreateResponse)
    case NDeleteRequest => Some(NDeleteResponse)
    case _ => None
  }

  /** Every response code is its request's code with bit 15 set (the
      request code is below 0x8000, so `| 0x8000` adds 0x8000), and bit 15
      is set exactly on responses. */
  lemma ResponseCodes(f: CommandField)
    ensures ResponseTo(f).Some? ==> f.Code() < 0x8000 && ResponseTo(f).value.Code() == f.Code() + 0x8000
    ensures f.IsResponse() <==> f.Code() >= 0x8000
  {
    match f
    case _ =>
  }

  /** The command field a code names, if any. */
  function CommandFieldOf(code: uint16): (r: Option<CommandField>)
    ensures r.Some? ==> r.value.Code() == code
  {
    if code == 0x0001 then Some(CStoreRequest) else if code == 0x8001 then Some(CStoreResponse)
    else if code == 0x0010 then Some(CGetRequest) else if code == 0x8010 then Some(CGetResponse)
    else if code == 0x0020 then Some(CFindRequest) else if code == 0x8020 then Some(CFindResponse)
    else if code == 0x0021 then Some(CMoveRequest) else if code == 0x8021 then Some(CMoveResponse)
    else if code == 0x0030 then Some(CEchoRequest) else if code == 0x8030 then Some(CEchoResponse)
    else if code == 0x0100 then Some(NEventReportRequest) else if code == 0x8100 then Some(NEventReportResponse)
    else if code == 0x0110 then Some(NGetRequest) else if code == 0x8110 then Some(NGetResponse)
    else if code == 0x0120 then Some(NSetRequest) else if code == 0x8120 then Some(NSetResponse)
    else if code == 0x0130 then Some(NActionRequest) else if code == 0x8130 then Some(NActionResponse)
    else if code == 0x0140 then Some(NCreateRequest) else if code == 0x8140 then Some(NCreateResponse)
    else if code == 0x0150 then Some(NDeleteRequest) else if code == 0x8150 then Some(NDeleteResponse)
    else if code == 0x0FFF then Some(CCancelRequest)
    else None
  }

  /** Each command field is named by its own code, so the codes are
      distinct. */
  lemma CommandFieldCodes(f: CommandField, g: CommandField)
    ensures CommandFieldOf(f.Code()) == Some(f)
    ensures f.Code() == g.Code() ==> f == g
  {
    assert CommandFieldOf(g.Code()) == Some(g);
  }

  /** The `ushort` properties: each reads its element with `GetUInt16` and
      a default, and writes it with `AddElementWithValue` (VR US). */
  datatype UShortField =
    | CommandFieldTag | MessageID | MessageIDBeingRespondedTo | PriorityTag | DataSetType
    | Status | ErrorID | EventTypeID | ActionTypeID
    | NumberOfRemainingSuboperations | NumberOfCompletedSuboperations
    | NumberOfFailedSuboperations | NumberOfWarningSuboperations | MoveOriginatorMessageID
  {
    function Tag(): D.Tag {
      match this
      case CommandFieldTag => D.Tag(0x0000, 0x0100)
      case MessageID => D.Tag(0x0000, 0x0110)
      case MessageIDBeingRespondedTo => D.Tag(0x0000, 0x0120)
      case PriorityTag => D.Tag(0x0000, 0x0700)
      case DataSetType => D.Tag(0x0000, 0x0800)
      case Status => D.Tag(0x0000, 0x0900)
      case ErrorID => D.Tag(0x0000, 0x0903)
      case EventTypeID => D.Tag(0x0000, 0x1002)
      case ActionTypeID => D.Tag(0x0000, 0x1008)
      case NumberOfRemainingSuboperations => D.Tag(0x0000, 0x1020)
      case NumberOfCompletedSuboperations => D.Tag(0x0000, 0x1021)
      case NumberOfFailedSuboperations => D.Tag(0x0000, 0x1022)
      case NumberOfWarningSuboperations => D.Tag(0x0000, 0x1023)
      case MoveOriginatorMessageID => D.Tag(0x0000, 0x1031)
    }

    /** The getter's default: 0x0101 (no dataset) for DataSetType, 0x0211
        for Status, 0 for every other property. */
    function Default(): uint16 {
      if this == DataSetType then 0x0101
      else if this == Status then 0x0211
      else 0
    }
  }

  /** Different properties live under different tags. */
  lemma UShortTagsDistinct(f: UShortField, g: UShortField)
    requires f != g
    ensures f.Tag() != g.Tag()
  {
  }

  /** The string and UID properties (their getters give null when the
      element is absent). */
  datatype TextField =
    | AffectedSOPClassUID | RequestedSOPClassUID | AffectedSOPInstanceUID | RequestedSOPInstanceUID
    | MoveDestinationAE | ErrorComment | MoveOriginatorAE
  {
    function Tag(): D.Tag {
      match this
      case AffectedSOPClassUID => D.Tag(0x0000, 0x0002)
      case RequestedSOPClassUID => D.Tag(0x0000, 0x0003)
      case AffectedSOPInstanceUID => D.Tag(0x0000, 0x1000)
      case RequestedSOPInstanceUID => D.Tag(0x0000, 0x1001)
      case MoveDestinationAE => D.Tag(0x0000, 0x0600)
      case ErrorComment => D.Tag(0x0000, 0x0902)
      case MoveOriginatorAE => D.Tag(0x0000, 0x1030)
    }

    function VR(): (vr: VRs.DcmVR)
      ensures vr.isString
    {
      match this
      case AffectedSOPClassUID | RequestedSOPClassUID | AffectedSOPInstanceUID | RequestedSOPInstanceUID => VRs.UI
      case MoveDestinationAE | MoveOriginatorAE => VRs.AE
      case ErrorComment => VRs.LO
    }
  }

  class DcmCommand {
    const dataset: D.DcmDataset

    ghost predicate Valid()
      reads this, dataset
    {
      dataset.Valid() && dataset.transferSyntax == TS.ImplicitVRLittleEndian
    }

    /** A new command: an empty dataset in Implicit VR Little Endian, so
        every getter gives its default and there is no dataset. */
    constructor ()
      ensures Valid() && fresh(dataset) && dataset.items == []
      ensures forall f :: GetUShort(f) == Success(f.Default())
      ensures HasDataset() == Success(false)
      ensures forall f :: GetText(f) == Success(None)
    {
      dataset := new D.DcmDataset(TS.ImplicitVRLittleEndian);
    }

    /** A `ushort` getter: the default when the element is absent. */
    function GetUShort(f: UShortField): (r: Result<uint16, D.DataError>)
      reads dataset
      ensures D.GetElement(dataset.items, f.Tag()).None? ==> r == Success(f.Default())
    {
      D.GetUInt16(dataset.items, f.Tag(), f.Default())
    }

    /** A `ushort` setter: the value reads back and no other element
        changes. */
    method SetUShort(f: UShortField, value: uint16)
      requires Valid()
      modifies dataset
      ensures Valid()
      ensures dataset.items == D.Insert(old(dataset.items), D.Element(f.Tag(), VRs.US, D.Numbers([value]), dataset.transferSyntax.endian))
      ensures GetUShort(f) == Success(value)
      ensures forall u :: u != f.Tag() ==> D.GetItem(dataset.items, u) == D.GetItem(old(dataset.items), u)
    {
      var r := dataset.AddElementWithUInt16(f.Tag(), VRs.US, value);
      ghost var stored := D.Element(f.Tag(), VRs.US, D.Numbers([value]), dataset.transferSyntax.endian);
      D.UInt16RoundTrip(old(dataset.items), f.Tag(), value, dataset.transferSyntax.endian, f.Default());
      forall u | u != f.Tag() ensures D.GetItem(dataset.items, u) == D.GetItem(old(dataset.items), u) {
        D.GetItemInsert(old(dataset.items), stored, u);
      }
    }

    /** `HasDataset`: any DataSetType other than 0x0101. */
    function HasDataset(): (r: Result<bool, D.DataError>)
      reads dataset
      ensures r.Success? <==> GetUShort(DataSetType).Success?
      ensures r.Success? ==> (r.value <==> GetUShort(DataSetType).value != 0x0101)
    {
      var t := GetUShort(DataSetType);
      if t.Failure? then Failure(t.error) else Success(t.value != 0x0101)
    }

    /** Setting `HasDataset` stores 0x0202 or 0x0101, and reads back. */
    method SetHasDataset(value: bool)
      requires Valid()
      modifies dataset
      ensures Valid()
      ensures GetUShort(DataSetType) == Success(if value then 0x0202 else 0x0101)
      ensures HasDataset() == Success(value)
      ensures forall u :: u != DataSetType.Tag() ==> D.GetItem(dataset.items, u) == D.GetItem(old(dataset.items), u)
    {
      SetUShort(DataSetType, if value then 0x0202 else 0x0101);
    }

    /** `CommandField`: the stored code, as the enum it names when it names
        one. */
    function GetCommandField(): (r: Result<Option<CommandField>, D.DataError>)
      reads dataset
      ensures r.Success? <==> GetUShort(CommandFieldTag).Success?
      ensures r.Success? && r.value.Some? ==> r.value.value.Code() == GetUShort(CommandFieldTag).value
    {
      var c := GetUShort(CommandFieldTag);
      if c.Failure? then Failure(c.error) else Success(CommandFieldOf(c.value))
    }

    method SetCommandField(f: CommandField)
      requires Valid()
      modifies dataset
      ensures Valid()
      ensures GetCommandField() == Success(Some(f))
      ensures forall u :: u != CommandFieldTag.Tag() ==> D.GetItem(dataset.items, u) == D.GetItem(old(dataset.items), u)
    {
      SetUShort(CommandFieldTag, f.Code());
      CommandFieldCodes(f, f);
    }

    /** A string or UID getter: null when the element is absent, else the
        first value. */
    function GetText(f: TextField): (r: Result<Option<string>, D.DataError>)
      reads dataset
      ensures D.GetElement(dataset.items, f.Tag()).None? <==> r == Success(None)
    {
      if D.GetElement(dataset.items, f.Tag()).None? then Success(None)
      else
        var s := D.GetString(dataset.items, f.Tag(), 0, "");
        if s.Failure? then Failure(s.error) else Success(Some(s.value))
    }

    /** A string or UID setter. An empty string leaves the element empty,
        and then the getter's index 0 is out of range. */
    method SetText(f: TextField, value: string)
      requires Valid()
      modifies dataset
      ensures Valid()
      ensures dataset.items == D.Insert(old(dataset.items), D.Element(f.Tag(), f.VR(), D.Text(value), dataset.transferSyntax.endian))
      ensures value != "" && '\\' !in value ==> GetText(f) == Success(Some(value))
      ensures value == "" ==> GetText(f) == Failure(D.IndexOutOfRange)
    {
      var r := dataset.AddElementWithString(f.Tag(), f.VR(), value);
      ghost var stored := D.Element(f.Tag(), f.VR(), D.Text(value), dataset.transferSyntax.endian);
      D.GetItemInsert(old(dataset.items), stored, f.Tag());
      if value != "" && '\\' !in value {
        D.StringRoundTrip(old(dataset.items), f.Tag(), f.VR(), value, dataset.transferSyntax.endian, "");
      }
    }
  }
}
