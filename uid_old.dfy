/** The UID registry of Dicom/Data/DcmUID.cs: a UID is its dotted text,
    a description and a type. The registry maps each registered UID text to
    its entry; a lookup of an unregistered text makes a new Unknown entry. */
module UidOld {
  import opened Ints
  import opened Text

  datatype UidType = TransferSyntax | SOPClass | MetaSOPClass | SOPInstance | ApplicationContextName
                   | CodingScheme | FrameOfReference | LDAP | Unknown

  datatype DcmUID = DcmUID(uid: string, description: string, uidType: UidType)

  /** The argument of `Equals(object)`: a UID, a string, or anything else. */
  datatype Object = UidObject(u: DcmUID) | StringObject(s: string) | OtherObject

  /** `ToString`: the bare UID for an unknown UID, "==" and the description otherwise. */
  function ToString(u: DcmUID): (s: string)
    ensures u.uidType == Unknown ==> s == u.uid
    ensures u.uidType != Unknown ==> |s| >= 2 && s[..2] == "==" && s[2..] == u.description
  {
    if u.uidType == Unknown then u.uid else "==" + u.description
  }

  /** `Equals(object)`: only the UID text counts, never the description or type. */
  function Equals(u: DcmUID, obj: Object): (b: bool)
    ensures b <==> (obj.UidObject? && obj.u.uid == u.uid) || (obj.StringObject? && obj.s == u.uid)
  {
    match obj
    case UidObject(o) => o.uid == u.uid
    case StringObject(s) => s == u.uid
    case OtherObject => false
  }

  /** Equality between UIDs is symmetric, and a UID equals its own text. */
  lemma EqualsSymmetric(a: DcmUID, b: DcmUID)
    ensures Equals(a, UidObject(b)) == Equals(b, UidObject(a))
    ensures Equals(a, StringObject(a.uid))
  {
  }

  /** `Generate(baseUid, nextSeq)`: the base UID, a dot, and the sequence number in decimal. */
  function Generate(baseUid: DcmUID, nextSeq: int64): (u: DcmUID)
    ensures u.uidType == SOPInstance && u.description == "SOP Instance UID"
    ensures |u.uid| > |baseUid.uid| + 1
    ensures u.uid[..|baseUid.uid|] == baseUid.uid && u.uid[|baseUid.uid|] == '.'
    ensures u.uid[|baseUid.uid| + 1..] == IntToString(nextSeq)
  {
    DcmUID(baseUid.uid + "." + IntToString(nextSeq), "SOP Instance UID", SOPInstance)
  }

  /** `Generate()`: the implementation class UID and the current clock ticks, both
      supplied by the caller. */
  function GenerateNow(implementationClass: DcmUID, ticks: int64): (u: DcmUID)
    ensures u.uid == implementationClass.uid + "." + IntToString(ticks)
    ensures u.description == "SOP Instance UID" && u.uidType == SOPInstance
  {
    Generate(implementationClass, ticks)
  }

  /** Different sequence numbers under one base give different UIDs. */
  lemma GenerateInjective(baseUid: DcmUID, s1: int64, s2: int64)
    requires Generate(baseUid, s1).uid == Generate(baseUid, s2).uid
    ensures s1 == s2
  {
    var n := |baseUid.uid| + 1;
    assert Generate(baseUid, s1).uid[n..] == Generate(baseUid, s2).uid[n..];
    IntToStringInjective(s1, s2);
  }

  /** Every key of the registry is the UID text of its entry. */
  ghost predicate Keyed(r: map<string, DcmUID>) {
    forall k :: k in r ==> r[k].uid == k
  }

  /** The static constructor adds each registered UID under its text, in order. */
  function BuildRegistry(es: seq<DcmUID>): (r: map<string, DcmUID>)
    ensures Keyed(r)
    ensures forall i :: 0 <= i < |es| ==> es[i].uid in r
    ensures forall k :: k in r ==> r[k] in es
  {
    if |es| == 0 then map[] else
      var r := BuildRegistry(es[..|es| - 1]);
      var last := es[|es| - 1];
      r[last.uid := last]
  }

  /** A UID registered once (no later entry has the same text) is found as itself. */
  lemma {:induction false} BuildRegistryFinds(es: seq<DcmUID>, i: nat)
    requires i < |es|
    requires forall j :: i < j < |es| ==> es[j].uid != es[i].uid
    ensures BuildRegistry(es)[es[i].uid] == es[i]
  {
    if i < |es| - 1 {
      BuildRegistryFinds(es[..|es| - 1], i);
    }
  }

  /** `DcmUIDs.Lookup(uid)`: the registered entry, or a new Unknown one. Either way
      its text is `uid`. */
  function Lookup(uid: string): (u: DcmUID)
    ensures u.uid == uid
    ensures uid in Registry ==> u == Registry[uid]
    ensures uid !in Registry ==> u == DcmUID(uid, "Unknown UID", Unknown)
  {
    if uid in Registry then Registry[uid] else DcmUID(uid, "Unknown UID", Unknown)
  }

  /** Looking up a UID's text and comparing gives the same UID text back: a lookup
      always `Equals` the string it was given. */
  lemma LookupEqualsItsText(uid: string)
    ensures Equals(Lookup(uid), StringObject(uid))
  {
  }

  /** A registered UID that no later registration shadows is what `Lookup` returns for its text. */
  lemma LookupRegistered(i: nat)
    requires i < |Registered|
    requires forall j :: i < j < |Registered| ==> Registered[j].uid != Registered[i].uid
    ensures Lookup(Registered[i].uid) == Registered[i]
  {
    BuildRegistryFinds(Registered, i);
  }

  // The UID constants of the `DcmUIDs` class.
  const VerificationSOPClass := DcmUID("1.2.840.10008.1.1", "Verification SOP Class", SOPClass)
  const ImplicitVRLittleEndian := DcmUID("1.2.840.10008.1.2", "Implicit VR Little Endian: Default Transfer Syntax for DICOM", TransferSyntax)
  const ExplicitVRLittleEndian := DcmUID("1.2.840.10008.1.2.1", "Explicit VR Little Endian", TransferSyntax)
  const DeflatedExplicitVRLittleEndian := DcmUID("1.2.840.10008.1.2.1.99", "Deflated Explicit VR Little Endian", TransferSyntax)
  const ExplicitVRBigEndian := DcmUID("1.2.840.10008.1.2.2", "Explicit VR Big Endian", TransferSyntax)
  const MPEG2MainProfileMainLevel := DcmUID("1.2.840.10008.1.2.4.100", "MPEG2 Main Profile @ Main Level", TransferSyntax)
  const JPEGBaselineProcess1 := DcmUID("1.2.840.10008.1.2.4.50", "JPEG Baseline (Process 1): Default Transfer Syntax for Lossy JPEG 8 Bit Image Compression", TransferSyntax)
  const JPEGExtendedProcess2_4 := DcmUID("1.2.840.10008.1.2.4.51", "JPEG Extended (Process 2 & 4): Default Transfer Syntax for Lossy JPEG 12 Bit Image Compression (Process 4 only)", TransferSyntax)
  const JPEGExtendedProcess3_5RETIRED := DcmUID("1.2.840.10008.1.2.4.52", "JPEG Extended (Process 3 & 5)", TransferSyntax)
  const JPEGSpectralSelectionNonHierarchicalProcess6_8RETIRED := DcmUID("1.2.840.10008.1.2.4.53", "JPEG Spectral Selection, Non-Hierarchical (Process 6 & 8)", TransferSyntax)
  const JPEGSpectralSelectionNonHierarchicalProcess7_9RETIRED := DcmUID("1.2.840.10008.1.2.4.54", "JPEG Spectral Selection, Non-Hierarchical (Process 7 & 9)", TransferSyntax)
  const JPEGFullProgressionNonHierarchicalProcess10_12RETIRED := DcmUID("1.2.840.10008.1.2.4.55", "JPEG Full Progression, Non-Hierarchical (Process 10 & 12)", TransferSyntax)
  const JPEGFullProgressionNonHierarchicalProcess11_13RETIRED := DcmUID("1.2.840.10008.1.2.4.56", "JPEG Full Progression, Non-Hierarchical (Process 11 & 13)", TransferSyntax)
  const JPEGLosslessNonHierarchicalProcess14 := DcmUID("1.2.840.10008.1.2.4.57", "JPEG Lossless, Non-Hierarchical (Process 14)", TransferSyntax)
  const JPEGLosslessNonHierarchicalProcess15RETIRED := DcmUID("1.2.840.10008.1.2.4.58", "JPEG Lossless, Non-Hierarchical (Process 15)", TransferSyntax)
  const JPEGExtendedHierarchicalProcess16_18RETIRED := DcmUID("1.2.840.10008.1.2.4.59", "JPEG Extended, Hierarchical (Process 16 & 18)", TransferSyntax)
  const JPEGExtendedHierarchicalProcess17_19RETIRED := DcmUID("1.2.840.10008.1.2.4.60", "JPEG Extended, Hierarchical (Process 17 & 19)", TransferSyntax)
  const JPEGSpectralSelectionHierarchicalProcess20_22RETIRED := DcmUID("1.2.840.10008.1.2.4.61", "JPEG Spectral Selection, Hierarchical (Process 20 & 22)", TransferSyntax)
  const JPEGSpectralSelectionHierarchicalProcess21_23RETIRED := DcmUID("1.2.840.10008.1.2.4.62", "JPEG Spectral Selection, Hierarchical (Process 21 & 23)", TransferSyntax)
  const JPEGFullProgressionHierarchicalProcess24_26RETIRED := DcmUID("1.2.840.10008.1.2.4.63", "JPEG Full Progression, Hierarchical (Process 24 & 26)", TransferSyntax)
  const JPEGFullProgressionHierarchicalProcess25_27RETIRED := DcmUID("1.2.840.10008.1.2.4.64", "JPEG Full Progression, Hierarchical (Process 25 & 27)", TransferSyntax)
  const JPEGLosslessHierarchicalProcess28RETIRED := DcmUID("1.2.840.10008.1.2.4.65", "JPEG Lossless, Hierarchical (Process 28)", TransferSyntax)
  const JPEGLosslessHierarchicalProcess29RETIRED := DcmUID("1.2.840.10008.1.2.4.66", "JPEG Lossless, Hierarchical (Process 29)", TransferSyntax)
  const JPEGLosslessProcess14SV1 := DcmUID("1.2.840.10008.1.2.4.70", "JPEG Lossless, Non-Hierarchical, First-Order Prediction (Process 14 [Selection Value 1]): Default Transfer Syntax for Lossless JPEG Image Compression", TransferSyntax)
  const JPEGLSLosslessImageCompression := DcmUID("1.2.840.10008.1.2.4.80", "JPEG-LS Lossless Image Compression", TransferSyntax)
  const JPEGLSLossyNearLosslessImageCompression := DcmUID("1.2.840.10008.1.2.4.81", "JPEG-LS Lossy (Near-Lossless) Image Compression", TransferSyntax)
  const JPEG2000ImageCompressionLosslessOnly := DcmUID("1.2.840.10008.1.2.4.90", "JPEG 2000 Image Compression (Lossless Only)", TransferSyntax)
  const JPEG2000ImageCompression := DcmUID("1.2.840.10008.1.2.4.91", "JPEG 2000 Image Compression", TransferSyntax)
  const JPEG2000Part2MulticomponentImageCompressionLosslessOnly := DcmUID("1.2.840.10008.1.2.4.92", "JPEG 2000 Part 2 Multi-component Image Compression (Lossless Only)", TransferSyntax)
  const JPEG2000Part2MulticomponentImageCompression := DcmUID("1.2.840.10008.1.2.4.93", "JPEG 2000 Part 2 Multi-component Image Compression", TransferSyntax)
  const JPIPReferenced := DcmUID("1.2.840.10008.1.2.4.94", "JPIP Referenced", TransferSyntax)
  const JPIPReferencedDeflate := DcmUID("1.2.840.10008.1.2.4.95", "JPIP Referenced Deflate", TransferSyntax)
  const RLELossless := DcmUID("1.2.840.10008.1.2.5", "RLE Lossless", TransferSyntax)
  const RFC2557MIMEEncapsulation := DcmUID("1.2.840.10008.1.2.6.1", "RFC 2557 MIME encapsulation", TransferSyntax)
  const XMLEncoding := DcmUID("1.2.840.10008.1.2.6.2", "XML Encoding", TransferSyntax)
  const StorageCommitmentPushModelSOPClass := DcmUID("1.2.840.10008.1.20.1", "Storage Commitment Push Model SOP Class", SOPClass)
  const StorageCommitmentPushModelSOPInstance := DcmUID("1.2.840.10008.1.20.1.1", "Storage Commitment Push Model SOP Instance", SOPInstance)
  const StorageCommitmentPullModelSOPClassRETIRED := DcmUID("1.2.840.10008.1.20.2", "Storage Commitment Pull Model SOP Class", SOPClass)
  const StorageCommitmentPullModelSOPInstanceRETIRED := DcmUID("1.2.840.10008.1.20.2.1", "Storage Commitment Pull Model SOP Instance", SOPInstance)
  const MediaStorageDirectoryStorage := DcmUID("1.2.840.10008.1.3.10", "Media Storage Directory Storage", SOPClass)
  const TalairachBrainAtlasFrameOfReference := DcmUID("1.2.840.10008.1.4.1.1", "Talairach Brain Atlas Frame of Reference", FrameOfReference)
  const SPM2GRAYFrameOfReference := DcmUID("1.2.840.10008.1.4.1.10", "SPM2 GRAY Frame of Reference", FrameOfReference)
  const SPM2WHITEFrameOfReference := DcmUID("1.2.840.10008.1.4.1.11", "SPM2 WHITE Frame of Reference", FrameOfReference)
  const SPM2CSFFrameOfReference := DcmUID("1.2.840.10008.1.4.1.12", "SPM2 CSF Frame of Reference", FrameOfReference)
  const SPM2BRAINMASKFrameOfReference := DcmUID("1.2.840.10008.1.4.1.13", "SPM2 BRAINMASK Frame of Reference", FrameOfReference)
  const SPM2AVG305T1FrameOfReference := DcmUID("1.2.840.10008.1.4.1.14", "SPM2 AVG305T1 Frame of Reference", FrameOfReference)
  const SPM2AVG152T1FrameOfReference := DcmUID("1.2.840.10008.1.4.1.15", "SPM2 AVG152T1 Frame of Reference", FrameOfReference)
  const SPM2AVG152T2FrameOfReference := DcmUID("1.2.840.10008.1.4.1.16", "SPM2 AVG152T2 Frame of Reference", FrameOfReference)
  const SPM2AVG152PDFrameOfReference := DcmUID("1.2.840.10008.1.4.1.17", "SPM2 AVG152PD Frame of Reference", FrameOfReference)
  const SPM2SINGLESUBJT1FrameOfReference := DcmUID("1.2.840.10008.1.4.1.18", "SPM2 SINGLESUBJT1 Frame of Reference", FrameOfReference)
  const SPM2T1FrameOfReference := DcmUID("1.2.840.10008.1.4.1.2", "SPM2 T1 Frame of Reference", FrameOfReference)
  const SPM2T2FrameOfReference := DcmUID("1.2.840.10008.1.4.1.3", "SPM2 T2 Frame of Reference", FrameOfReference)
  const SPM2PDFrameOfReference := DcmUID("1.2.840.10008.1.4.1.4", "SPM2 PD Frame of Reference", FrameOfReference)
  const SPM2EPIFrameOfReference := DcmUID("1.2.840.10008.1.4.1.5", "SPM2 EPI Frame of Reference", FrameOfReference)
  const SPM2FILT1FrameOfReference := DcmUID("1.2.840.10008.1.4.1.6", "SPM2 FIL T1 Frame of Reference", FrameOfReference)
  const SPM2PETFrameOfReference := DcmUID("1.2.840.10008.1.4.1.7", "SPM2 PET Frame of Reference", FrameOfReference)
  const SPM2TRANSMFrameOfReference := DcmUID("1.2.840.10008.1.4.1.8", "SPM2 TRANSM Frame of Reference", FrameOfReference)
  const SPM2SPECTFrameOfReference := DcmUID("1.2.840.10008.1.4.1.9", "SPM2 SPECT Frame of Reference", FrameOfReference)
  const ICBM452T1FrameOfReference := DcmUID("1.2.840.10008.1.4.2.1", "ICBM 452 T1 Frame of Reference", FrameOfReference)
  const ICBMSingleSubjectMRIFrameOfReference := DcmUID("1.2.840.10008.1.4.2.2", "ICBM Single Subject MRI Frame of Reference", FrameOfReference)
  const ProceduralEventLoggingSOPClass := DcmUID("1.2.840.10008.1.40", "Procedural Event Logging SOP Class", SOPClass)
  const ProceduralEventLoggingSOPInstance := DcmUID("1.2.840.10008.1.40.1", "Procedural Event Logging SOP Instance", SOPInstance)
  const SubstanceAdministrationLoggingSOPClass := DcmUID("1.2.840.10008.1.42", "Substance Administration Logging SOP Class", SOPClass)
  const SubstanceAdministrationLoggingSOPInstance := DcmUID("1.2.840.10008.1.42.1", "Substance Administration Logging SOP Instance", SOPInstance)
  const BasicStudyContentNotificationSOPClassRETIRED := DcmUID("1.2.840.10008.1.9", "Basic Study Content Notification SOP Class", SOPClass)
  const LDAPDicomDeviceName := DcmUID("1.2.840.10008.15.0.3.1", "dicomDeviceName", LDAP)
  const LDAPDicomAssociationInitiator := DcmUID("1.2.840.10008.15.0.3.10", "dicomAssociationInitiator", LDAP)
  const LDAPDicomAssociationAcceptor := DcmUID("1.2.840.10008.15.0.3.11", "dicomAssociationAcceptor", LDAP)
  const LDAPDicomHostname := DcmUID("1.2.840.10008.15.0.3.12", "dicomHostname", LDAP)
  const LDAPDicomPort := DcmUID("1.2.840.10008.15.0.3.13", "dicomPort", LDAP)
  const LDAPDicomSOPClass := DcmUID("1.2.840.10008.15.0.3.14", "dicomSOPClass", LDAP)
  const LDAPDicomTransferRole := DcmUID("1.2.840.10008.15.0.3.15", "dicomTransferRole", LDAP)
  const LDAPDicomTransferSyntax := DcmUID("1.2.840.10008.15.0.3.16", "dicomTransferSyntax", LDAP)
  const LDAPDicomPrimaryDeviceType := DcmUID("1.2.840.10008.15.0.3.17", "dicomPrimaryDeviceType", LDAP)
  const LDAPDicomRelatedDeviceReference := DcmUID("1.2.840.10008.15.0.3.18", "dicomRelatedDeviceReference", LDAP)
  const LDAPDicomPreferredCalledAETitle := DcmUID("1.2.840.10008.15.0.3.19", "dicomPreferredCalledAETitle", LDAP)
  const LDAPDicomDescription := DcmUID("1.2.840.10008.15.0.3.2", "dicomDescription", LDAP)
  const LDAPDicomTLSCyphersuite := DcmUID("1.2.840.10008.15.0.3.20", "dicomTLSCyphersuite", LDAP)
  const LDAPDicomAuthorizedNodeCertificateReference := DcmUID("1.2.840.10008.15.0.3.21", "dicomAuthorizedNodeCertificateReference", LDAP)
  const LDAPDicomThisNodeCertificateReference := DcmUID("1.2.840.10008.15.0.3.22", "dicomThisNodeCertificateReference", LDAP)
  const LDAPDicomInstalled := DcmUID("1.2.840.10008.15.0.3.23", "dicomInstalled", LDAP)
  const LDAPDicomStationName := DcmUID("1.2.840.10008.15.0.3.24", "dicomStationName", LDAP)
  const LDAPDicomDeviceSerialNumber := DcmUID("1.2.840.10008.15.0.3.25", "dicomDeviceSerialNumber", LDAP)
  const LDAPDicomInstitutionName := DcmUID("1.2.840.10008.15.0.3.26", "dicomInstitutionName", LDAP)
  const LDAPDicomInstitutionAddress := DcmUID("1.2.840.10008.15.0.3.27", "dicomInstitutionAddress", LDAP)
  const LDAPDicomInstitutionDepartmentName := DcmUID("1.2.840.10008.15.0.3.28", "dicomInstitutionDepartmentName", LDAP)
  const LDAPDicomIssuerOfPatientID := DcmUID("1.2.840.10008.15.0.3.29", "dicomIssuerOfPatientID", LDAP)
  const LDAPDicomManufacturer := DcmUID("1.2.840.10008.15.0.3.3", "dicomManufacturer", LDAP)
  const LDAPDicomPreferredCallingAETitle := DcmUID("1.2.840.10008.15.0.3.30", "dicomPreferredCallingAETitle", LDAP)
  const LDAPDicomSupportedCharacterSet := DcmUID("1.2.840.10008.15.0.3.31", "dicomSupportedCharacterSet", LDAP)
  const LDAPDicomManufacturerModelName := DcmUID("1.2.840.10008.15.0.3.4", "dicomManufacturerModelName", LDAP)
  const LDAPDicomSoftwareVersion := DcmUID("1.2.840.10008.15.0.3.5", "dicomSoftwareVersion", LDAP)
  const LDAPDicomVendorData := DcmUID("1.2.840.10008.15.0.3.6", "dicomVendorData", LDAP)
  const LDAPDicomAETitle := DcmUID("1.2.840.10008.15.0.3.7", "dicomAETitle", LDAP)
  const LDAPDicomNetworkConnectionReference := DcmUID("1.2.840.10008.15.0.3.8", "dicomNetworkConnectionReference", LDAP)
  const LDAPDicomApplicationCluster := DcmUID("1.2.840.10008.15.0.3.9", "dicomApplicationCluster", LDAP)
  const LDAPDicomConfigurationRoot := DcmUID("1.2.840.10008.15.0.4.1", "dicomConfigurationRoot", LDAP)
  const LDAPDicomDevicesRoot := DcmUID("1.2.840.10008.15.0.4.2", "dicomDevicesRoot", LDAP)
  const LDAPDicomUniqueAETitlesRegistryRoot := DcmUID("1.2.840.10008.15.0.4.3", "dicomUniqueAETitlesRegistryRoot", LDAP)
  const LDAPDicomDevice := DcmUID("1.2.840.10008.15.0.4.4", "dicomDevice", LDAP)
  const LDAPDicomNetworkAE := DcmUID("1.2.840.10008.15.0.4.5", "dicomNetworkAE", LDAP)
  const LDAPDicomNetworkConnection := DcmUID("1.2.840.10008.15.0.4.6", "dicomNetworkConnection", LDAP)
  const LDAPDicomUniqueAETitle := DcmUID("1.2.840.10008.15.0.4.7", "dicomUniqueAETitle", LDAP)
  const LDAPDicomTransferCapability := DcmUID("1.2.840.10008.15.0.4.8", "dicomTransferCapability", LDAP)
  const DICOMControlledTerminology := DcmUID("1.2.840.10008.2.16.4", "DICOM Controlled Terminology", CodingScheme)
  const DICOMUIDRegistry := DcmUID("1.2.840.10008.2.6.1", "DICOM UID Registry", CodingScheme)
  const DICOMApplicationContextName := DcmUID("1.2.840.10008.3.1.1.1", "DICOM Application Context Name", ApplicationContextName)
  const DetachedPatientManagementSOPClassRETIRED := DcmUID("1.2.840.10008.3.1.2.1.1", "Detached Patient Management SOP Class", SOPClass)
  const DetachedPatientManagementMetaSOPClassRETIRED := DcmUID("1.2.840.10008.3.1.2.1.4", "Detached Patient Management Meta SOP Class", MetaSOPClass)
  const DetachedVisitManagementSOPClassRETIRED := DcmUID("1.2.840.10008.3.1.2.2.1", "Detached Visit Management SOP Class", SOPClass)
  const DetachedStudyManagementSOPClassRETIRED := DcmUID("1.2.840.10008.3.1.2.3.1", "Detached Study Management SOP Class", SOPClass)
  const StudyComponentManagementSOPClassRETIRED := DcmUID("1.2.840.10008.3.1.2.3.2", "Study Component Management SOP Class", SOPClass)
  const ModalityPerformedProcedureStepSOPClass := DcmUID("1.\U{015F}2.840.10008.3.1.2.3.3", "Modality Performed Procedure Step SOP Class", SOPClass)
  const ModalityPerformedProcedureStepRetrieveSOPClass := DcmUID("1.\U{015F}2.840.10008.3.1.2.3.4", "Modality Performed Procedure Step Retrieve SOP Class", SOPClass)
  const ModalityPerformedProcedureStepNotificationSOPClass := DcmUID("1.\U{015F}2.840.10008.3.1.2.3.5", "Modality Performed Procedure Step Notification SOP Class", SOPClass)
  const DetachedResultsManagementSOPClassRETIRED := DcmUID("1.2.840.10008.3.1.2.5.1", "Detached Results Management SOP Class", SOPClass)
  const DetachedResultsManagementMetaSOPClassRETIRED := DcmUID("1.2.840.10008.3.1.2.5.4", "Detached Results Management Meta SOP Class", MetaSOPClass)
  const DetachedStudyManagementMetaSOPClassRETIRED := DcmUID("1.2.840.10008.3.1.2.5.5", "Detached Study Management Meta SOP Class", MetaSOPClass)
  const DetachedInterpretationManagementSOPClassRETIRED := DcmUID("1.2.840.10008.3.1.2.6.1", "Detached Interpretation Management SOP Class", SOPClass)
  const BasicFilmSessionSOPClass := DcmUID("1.2.840.10008.5.1.1.1", "Basic Film Session SOP Class", SOPClass)
  const PrintJobSOPClass := DcmUID("1.2.840.10008.5.1.1.14", "Print Job SOP Class", SOPClass)
  const BasicAnnotationBoxSOPClass := DcmUID("1.2.840.10008.5.1.1.15", "Basic Annotation Box SOP Class", SOPClass)
  const PrinterSOPClass := DcmUID("1.2.840.10008.5.1.1.16", "Printer SOP Class", SOPClass)
  const PrinterConfigurationRetrievalSOPClass := DcmUID("1.2.840.10008.5.1.1.16.376", "Printer Configuration Retrieval SOP Class", SOPClass)
  const PrinterSOPInstance := DcmUID("1.2.840.10008.5.1.1.17", "Printer SOP Instance", SOPInstance)
  const PrinterConfigurationRetrievalSOPInstance := DcmUID("1.2.840.10008.5.1.1.17.376", "Printer Configuration Retrieval SOP Instance", SOPInstance)
  const BasicColorPrintManagementMetaSOPClass := DcmUID("1.2.840.10008.5.1.1.18", "Basic Color Print Management Meta SOP Class", MetaSOPClass)
  const ReferencedColorPrintManagementMetaSOPClassRETIRED := DcmUID("1.2.840.10008.5.1.1.18.1", "Referenced Color Print Management Meta SOP Class", MetaSOPClass)
  const BasicFilmBoxSOPClass := DcmUID("1.2.840.10008.5.1.1.2", "Basic Film Box SOP Class", SOPClass)
  const VOILUTBoxSOPClass := DcmUID("1.2.840.10008.5.1.1.22", "VOI LUT Box SOP Class", SOPClass)
  const PresentationLUTSOPClass := DcmUID("1.2.840.10008.5.1.1.23", "Presentation LUT SOP Class", SOPClass)
  const ImageOverlayBoxSOPClassRETIRED := DcmUID("1.2.840.10008.5.1.1.24", "Image Overlay Box SOP Class", SOPClass)
  const BasicPrintImageOverlayBoxSOPClassRETIRED := DcmUID("1.2.840.10008.5.1.1.24.1", "Basic Print Image Overlay Box SOP Class", SOPClass)
  const PrintQueueSOPInstanceRETIRED := DcmUID("1.2.840.10008.5.1.1.25", "Print Queue SOP Instance", SOPInstance)
  const PrintQueueManagementSOPClassRETIRED := DcmUID("1.2.840.10008.5.1.1.26", "Print Queue Management SOP Class", SOPClass)
  const StoredPrintStorageSOPClassRETIRED := DcmUID("1.2.840.10008.5.1.1.27", "Stored Print Storage SOP Class", SOPClass)
  const HardcopyGrayscaleImageStorageSOPClassRETIRED := DcmUID("1.2.840.10008.5.1.1.29", "Hardcopy Grayscale Image Storage SOP Class", SOPClass)
  const HardcopyColorImageStorageSOPClassRETIRED := DcmUID("1.2.840.10008.5.1.1.30", "Hardcopy Color Image Storage SOP Class", SOPClass)
  const PullPrintRequestSOPClassRETIRED := DcmUID("1.2.840.10008.5.1.1.31", "Pull Print Request SOP Class", SOPClass)
  const PullStoredPrintManagementMetaSOPClassRETIRED := DcmUID("1.2.840.10008.5.1.1.32", "Pull Stored Print Management Meta SOP Class", MetaSOPClass)
  const MediaCreationManagementSOPClassUID := DcmUID("1.2.840.10008.5.1.1.33", "Media Creation Management SOP Class UID", SOPClass)
  const BasicGrayscaleImageBoxSOPClass := DcmUID("1.2.840.10008.5.1.1.4", "Basic Grayscale Image Box SOP Class", SOPClass)
  const BasicColorImageBoxSOPClass := DcmUID("1.2.840.10008.5.1.1.4.1", "Basic Color Image Box SOP Class", SOPClass)
  const ReferencedImageBoxSOPClassRETIRED := DcmUID("1.2.840.10008.5.1.1.4.2", "Referenced Image Box SOP Class", SOPClass)
  const BasicGrayscalePrintManagementMetaSOPClass := DcmUID("1.2.840.10008.5.1.1.9", "Basic Grayscale Print Management Meta SOP Class", MetaSOPClass)
  const ReferencedGrayscalePrintManagementMetaSOPClassRETIRED := DcmUID("1.2.840.10008.5.1.1.9.1", "Referenced Grayscale Print Management Meta SOP Class", MetaSOPClass)
  const ComputedRadiographyImageStorage := DcmUID("1.2.840.10008.5.1.4.1.1.1", "Computed Radiography Image Storage", SOPClass)
  const DigitalXRayImageStorageForPresentation := DcmUID("1.2.840.10008.5.1.4.1.1.1.1", "Digital X-Ray Image Storage \U{013E} For Presentation", SOPClass)
  const DigitalXRayImageStorageForProcessing := DcmUID("1.2.840.10008.5.1.4.1.1.1.1.1", "Digital X-Ray Image Storage \U{013E} For Processing", SOPClass)
  const DigitalMammographyXRayImageStorageForPresentation := DcmUID("1.2.840.10008.5.1.4.1.1.1.2", "Digital Mammography X-Ray Image Storage \U{013E} For Presentation", SOPClass)
  const DigitalMammographyXRayImageStorageForProcessing := DcmUID("1.2.840.10008.5.1.4.1.1.1.2.1", "Digital Mammography X-Ray Image Storage \U{013E} For Processing", SOPClass)
  const DigitalIntraoralXRayImageStorageForPresentation := DcmUID("1.2.840.10008.5.1.4.1.1.1.3", "Digital Intra-oral X-Ray Image Storage \U{013E} For Presentation", SOPClass)
  const DigitalIntraoralXRayImageStorageForProcessing := DcmUID("1.2.840.10008.5.1.4.1.1.1.3.1", "Digital Intra-oral X-Ray Image Storage \U{013E} For Processing", SOPClass)
  const StandaloneModalityLUTStorageRETIRED := DcmUID("1.2.840.10008.5.1.4.1.1.10", "Standalone Modality LUT Storage", SOPClass)
  const EncapsulatedPDFStorage := DcmUID("1.2.840.10008.5.1.4.1.1.104.1", "Encapsulated PDF Storage", SOPClass)
  const EncapsulatedCDAStorage := DcmUID("1.2.840.10008.5.1.4.1.1.104.2", "Encapsulated CDA Storage", SOPClass)
  const StandaloneVOILUTStorageRETIRED := DcmUID("1.2.840.10008.5.1.4.1.1.11", "Standalone VOI LUT Storage", SOPClass)
  const GrayscaleSoftcopyPresentationStateStorageSOPClass := DcmUID("1.2.840.10008.5.1.4.1.1.11.1", "Grayscale Softcopy Presentation State Storage SOP Class", SOPClass)
  const ColorSoftcopyPresentationStateStorageSOPClass := DcmUID("1.2.840.10008.5.1.4.1.1.11.2", "Color Softcopy Presentation State Storage SOP Class", SOPClass)
  const PseudoColorSoftcopyPresentationStateStorageSOPClass := DcmUID("1.2.840.10008.5.1.4.1.1.11.3", "Pseudo-Color Softcopy Presentation State Storage SOP Class", SOPClass)
  const BlendingSoftcopyPresentationStateStorageSOPClass := DcmUID("1.2.840.10008.5.1.4.1.1.11.4", "Blending Softcopy Presentation State Storage SOP Class", SOPClass)
  const XRayAngiographicImageStorage := DcmUID("1.2.840.10008.5.1.4.1.1.12.1", "X-Ray Angiographic Image Storage", SOPClass)
  const EnhancedXAImageStorage := DcmUID("1.2.840.10008.5.1.4.1.1.12.1.1", "Enhanced XA Image Storage", SOPClass)
  const XRayRadiofluoroscopicImageStorage := DcmUID("1.2.840.10008.5.1.4.1.1.12.2", "X-Ray Radiofluoroscopic Image Storage", SOPClass)
  const EnhancedXRFImageStorage := DcmUID("1.2.840.10008.5.1.4.1.1.12.2.1", "Enhanced XRF Image Storage", SOPClass)
  const XRayAngiographicBiPlaneImageStorageRETIRED := DcmUID("1.2.840.10008.5.1.4.1.1.12.3", "X-Ray Angiographic Bi-Plane Image Storage", SOPClass)
  const PositronEmissionTomographyImageStorage := DcmUID("1.2.840.10008.5.1.4.1.1.128", "Positron Emission Tomography Image Storage", SOPClass)
  const StandalonePETCurveStorageRETIRED := DcmUID("1.2.840.10008.5.1.4.1.1.129", "Standalone PET Curve Storage", SOPClass)
  const XRay3DAngiographicImageStorage := DcmUID("1.2.840.10008.5.1.4.1.1.13.1.1", "X-Ray 3D Angiographic Image Storage", SOPClass)
  const XRay3DCraniofacialImageStorage := DcmUID("1.2.840.10008.5.1.4.1.1.13.1.2", "X-Ray 3D Craniofacial Image Storage", SOPClass)
  const CTImageStorage := DcmUID("1.2.840.10008.5.1.4.1.1.2", "CT Image Storage", SOPClass)
  const EnhancedCTImageStorage := DcmUID("1.2.840.10008.5.1.4.1.1.2.1", "Enhanced CT Image Storage", SOPClass)
  const NuclearMedicineImageStorage := DcmUID("1.2.840.10008.5.1.4.1.1.20", "Nuclear Medicine Image Storage", SOPClass)
  const UltrasoundMultiframeImageStorageRETIRED := DcmUID("1.2.840.10008.5.1.4.1.1.3", "Ultrasound Multi-frame Image Storage", SOPClass)
  const UltrasoundMultiframeImageStorage := DcmUID("1.2.840.10008.5.1.4.1.1.3.1", "Ultrasound Multi-frame Image Storage", SOPClass)
  const MRImageStorage := DcmUID("1.2.840.10008.5.1.4.1.1.4", "MR Image Storage", SOPClass)
  const EnhancedMRImageStorage := DcmUID("1.2.840.10008.5.1.4.1.1.4.1", "Enhanced MR Image Storage", SOPClass)
  const MRSpectroscopyStorage := DcmUID("1.2.840.10008.5.1.4.1.1.4.2", "MR Spectroscopy Storage", SOPClass)
  const RTImageStorage := DcmUID("1.2.840.10008.5.1.4.1.1.481.1", "RT Image Storage", SOPClass)
  const RTDoseStorage := DcmUID("1.2.840.10008.5.1.4.1.1.481.2", "RT Dose Storage", SOPClass)
  const RTStructureSetStorage := DcmUID("1.2.840.10008.5.1.4.1.1.481.3", "RT Structure Set Storage", SOPClass)
  const RTBeamsTreatmentRecordStorage := DcmUID("1.2.840.10008.5.1.4.1.1.481.4", "RT Beams Treatment Record Storage", SOPClass)
  const RTPlanStorage := DcmUID("1.2.840.10008.5.1.4.1.1.481.5", "RT Plan Storage", SOPClass)
  const RTBrachyTreatmentRecordStorage := DcmUID("1.2.840.10008.5.1.4.1.1.481.6", "RT Brachy Treatment Record Storage", SOPClass)
  const RTTreatmentSummaryRecordStorage := DcmUID("1.2.840.10008.5.1.4.1.1.481.7", "RT Treatment Summary Record Storage", SOPClass)
  const RTIonPlanStorage := DcmUID("1.2.840.10008.5.1.4.1.1.481.8", "RT Ion Plan Storage", SOPClass)
  const RTIonBeamsTreatmentRecordStorage := DcmUID("1.2.840.10008.5.1.4.1.1.481.9", "RT Ion Beams Treatment Record Storage", SOPClass)
  const NuclearMedicineImageStorageRETIRED := DcmUID("1.2.840.10008.5.1.4.1.1.5", "Nuclear Medicine Image Storage", SOPClass)
  const UltrasoundImageStorageRETIRED := DcmUID("1.2.840.10008.5.1.4.1.1.6", "Ultrasound Image Storage", SOPClass)
  const UltrasoundImageStorage := DcmUID("1.2.840.10008.5.1.4.1.1.6.1", "Ultrasound Image Storage", SOPClass)
  const RawDataStorage := DcmUID("1.2.840.10008.5.1.4.1.1.66", "Raw Data Storage", SOPClass)
  const SpatialRegistrationStorage := DcmUID("1.2.840.10008.5.1.4.1.1.66.1", "Spatial Registration Storage", SOPClass)
  const SpatialFiducialsStorage := DcmUID("1.2.840.10008.5.1.4.1.1.66.2", "Spatial Fiducials Storage", SOPClass)
  const DeformableSpatialRegistrationStorage := DcmUID("1.2.840.10008.5.1.4.1.1.66.3", "Deformable Spatial Registration Storage", SOPClass)
  const SegmentationStorage := DcmUID("1.2.840.10008.5.1.4.1.1.66.4", "Segmentation Storage", SOPClass)
  const RealWorldValueMappingStorage := DcmUID("1.2.840.10008.5.1.4.1.1.67", "Real World Value Mapping Storage", SOPClass)
  const SecondaryCaptureImageStorage := DcmUID("1.2.840.10008.5.1.4.1.1.7", "Secondary Capture Image Storage", SOPClass)
  const MultiframeSingleBitSecondaryCaptureImageStorage := DcmUID("1.2.840.10008.5.1.4.1.1.7.1", "Multi-frame Single Bit Secondary Capture Image Storage", SOPClass)
  const MultiframeGrayscaleByteSecondaryCaptureImageStorage := DcmUID("1.2.840.10008.5.1.4.1.1.7.2", "Multi-frame Grayscale Byte Secondary Capture Image Storage", SOPClass)
  const MultiframeGrayscaleWordSecondaryCaptureImageStorage := DcmUID("1.2.840.10008.5.1.4.1.1.7.3", "Multi-frame Grayscale Word Secondary Capture Image Storage", SOPClass)
  const MultiframeTrueColorSecondaryCaptureImageStorage := DcmUID("1.2.840.10008.5.1.4.1.1.7.4", "Multi-frame True Color Secondary Capture Image Storage", SOPClass)
  const VLImageStorageTrialRETIRED := DcmUID("1.2.840.10008.5.1.4.1.1.77.1", "VL Image Storage - Trial", SOPClass)
  const VLEndoscopicImageStorage := DcmUID("1.2.840.10008.5.1.4.1.1.77.1.1", "VL Endoscopic Image Storage", SOPClass)
  const VideoEndoscopicImageStorage := DcmUID("1.2.840.10008.5.1.4.1.1.77.1.1.1", "Video Endoscopic Image Storage", SOPClass)
  const VLMicroscopicImageStorage := DcmUID("1.2.840.10008.5.1.4.1.1.77.1.2", "VL Microscopic Image Storage", SOPClass)
  const VideoMicroscopicImageStorage := DcmUID("1.2.840.10008.5.1.4.1.1.77.1.2.1", "Video Microscopic Image Storage", SOPClass)
  const VLSlideCoordinatesMicroscopicImageStorage := DcmUID("1.2.840.10008.5.1.4.1.1.77.1.3", "VL Slide-Coordinates Microscopic Image Storage", SOPClass)
  const VLPhotographicImageStorage := DcmUID("1.2.840.10008.5.1.4.1.1.77.1.4", "VL Photographic Image Storage", SOPClass)
  const VideoPhotographicImageStorage := DcmUID("1.2.840.10008.5.1.4.1.1.77.1.4.1", "Video Photographic Image Storage", SOPClass)
  const OphthalmicPhotography8BitImageStorage := DcmUID("1.2.840.10008.5.1.4.1.1.77.1.5.1", "Ophthalmic Photography 8 Bit Image Storage", SOPClass)
  const OphthalmicPhotography16BitImageStorage := DcmUID("1.2.840.10008.5.1.4.1.1.77.1.5.2", "Ophthalmic Photography 16 Bit Image Storage", SOPClass)
  const StereometricRelationshipStorage := DcmUID("1.2.840.10008.5.1.4.1.1.77.1.5.3", "Stereometric Relationship Storage", SOPClass)
  const OphthalmicTomographyImageStorage := DcmUID("1.2.840.10008.5.1.4.1.1.77.1.5.4", "Ophthalmic Tomography Image Storage", SOPClass)
  const VLMultiframeImageStorageTrialRETIRED := DcmUID("1.2.840.10008.5.1.4.1.1.77.2", "VL Multi-frame Image Storage \U{013E} Trial", SOPClass)
  const StandaloneOverlayStorageRETIRED := DcmUID("1.2.840.10008.5.1.4.1.1.8", "Standalone Overlay Storage", SOPClass)
  const TextSRStorageTrialRETIRED := DcmUID("1.2.840.10008.5.1.4.1.1.88.1", "Text SR Storage \U{013E} Trial", SOPClass)
  const BasicTextSRStorage := DcmUID("1.2.840.10008.5.1.4.1.1.88.11", "Basic Text SR Storage", SOPClass)
  const AudioSRStorageTrialRETIRED := DcmUID("1.2.840.10008.5.1.4.1.1.88.2", "Audio SR Storage \U{013E} Trial", SOPClass)
  const EnhancedSRStorage := DcmUID("1.2.840.10008.5.1.4.1.1.88.22", "Enhanced SR Storage", SOPClass)
  const DetailSRStorageTrialRETIRED := DcmUID("1.2.840.10008.5.1.4.1.1.88.3", "Detail SR Storage \U{013E} Trial", SOPClass)
  const ComprehensiveSRStorage := DcmUID("1.2.840.10008.5.1.4.1.1.88.33", "Comprehensive SR Storage", SOPClass)
  const ComprehensiveSRStorageTrialRETIRED := DcmUID("1.2.840.10008.5.1.4.1.1.88.4", "Comprehensive SR Storage \U{013E} Trial", SOPClass)
  const ProcedureLogStorage := DcmUID("1.2.840.10008.5.1.4.1.1.88.40", "Procedure Log Storage", SOPClass)
  const MammographyCADSRStorage := DcmUID("1.2.840.10008.5.1.4.1.1.88.50", "Mammography CAD SR Storage", SOPClass)
  const KeyObjectSelectionDocumentStorage := DcmUID("1.2.840.10008.5.1.4.1.1.88.59", "Key Object Selection Document Storage", SOPClass)
  const ChestCADSRStorage := DcmUID("1.2.840.10008.5.1.4.1.1.88.65", "Chest CAD SR Storage", SOPClass)
  const XRayRadiationDoseSRStorage := DcmUID("1.2.840.10008.5.1.4.1.1.88.67", "X-Ray Radiation Dose SR Storage", SOPClass)
  const StandaloneCurveStorageRETIRED := DcmUID("1.2.840.10008.5.1.4.1.1.9", "Standalone Curve Storage", SOPClass)
  const WaveformStorageTrialRETIRED := DcmUID("1.2.840.10008.5.1.4.1.1.9.1", "Waveform Storage - Trial", SOPClass)
  const TwelveLeadECGWaveformStorage := DcmUID("1.2.840.10008.5.1.4.1.1.9.1.1", "12-lead ECG Waveform Storage", SOPClass)
  const GeneralECGWaveformStorage := DcmUID("1.2.840.10008.5.1.4.1.1.9.1.2", "General ECG Waveform Storage", SOPClass)
  const AmbulatoryECGWaveformStorage := DcmUID("1.2.840.10008.5.1.4.1.1.9.1.3", "Ambulatory ECG Waveform Storage", SOPClass)
  const HemodynamicWaveformStorage := DcmUID("1.2.840.10008.5.1.4.1.1.9.2.1", "Hemodynamic Waveform Storage", SOPClass)
  const CardiacElectrophysiologyWaveformStorage := DcmUID("1.2.840.10008.5.1.4.1.1.9.3.1", "Cardiac Electrophysiology Waveform Storage", SOPClass)
  const BasicVoiceAudioWaveformStorage := DcmUID("1.2.840.10008.5.1.4.1.1.9.4.1", "Basic Voice Audio Waveform Storage", SOPClass)
  const PatientRootQueryRetrieveInformationModelFIND := DcmUID("1.2.840.10008.5.1.4.1.2.1.1", "Patient Root Query/Retrieve Information Model \U{013E} FIND", SOPClass)
  const PatientRootQueryRetrieveInformationModelMOVE := DcmUID("1.2.840.10008.5.1.4.1.2.1.2", "Patient Root Query/Retrieve Information Model \U{013E} MOVE", SOPClass)
  const PatientRootQueryRetrieveInformationModelGET := DcmUID("1.2.840.10008.5.1.4.1.2.1.3", "Patient Root Query/Retrieve Information Model \U{013E} GET", SOPClass)
  const StudyRootQueryRetrieveInformationModelFIND := DcmUID("1.2.840.10008.5.1.4.1.2.2.1", "Study Root Query/Retrieve Information Model \U{013E} FIND", SOPClass)
  const StudyRootQueryRetrieveInformationModelMOVE := DcmUID("1.2.840.10008.5.1.4.1.2.2.2", "Study Root Query/Retrieve Information Model \U{013E} MOVE", SOPClass)
  const StudyRootQueryRetrieveInformationModelGET := DcmUID("1.2.840.10008.5.1.4.1.2.2.3", "Study Root Query/Retrieve Information Model \U{013E} GET", SOPClass)
  const PatientStudyOnlyQueryRetrieveInformationModelFINDRETIRED := DcmUID("1.2.840.10008.5.1.4.1.2.3.1", "Patient/Study Only Query/Retrieve Information Model - FIND", SOPClass)
  const PatientStudyOnlyQueryRetrieveInformationModelMOVERETIRED := DcmUID("1.2.840.10008.5.1.4.1.2.3.2", "Patient/Study Only Query/Retrieve Information Model - MOVE", SOPClass)
  const PatientStudyOnlyQueryRetrieveInformationModelGETRETIRED := DcmUID("1.2.840.10008.5.1.4.1.2.3.3", "Patient/Study Only Query/Retrieve Information Model - GET", SOPClass)
  const ModalityWorklistInformationModelFIND := DcmUID("1.2.840.10008.5.1.4.31", "Modality Worklist Information Model \U{013E} FIND", SOPClass)
  const GeneralPurposeWorklistManagementMetaSOPClass := DcmUID("1.2.840.10008.5.1.4.32", "General Purpose Worklist Management Meta SOP Class", MetaSOPClass)
  const GeneralPurposeWorklistInformationModelFIND := DcmUID("1.2.840.10008.5.1.4.32.1", "General Purpose Worklist Information Model \U{013E} FIND", SOPClass)
  const GeneralPurposeScheduledProcedureStepSOPClass := DcmUID("1.2.840.10008.5.1.4.32.2", "General Purpose Scheduled Procedure Step SOP Class", SOPClass)
  const GeneralPurposePerformedProcedureStepSOPClass := DcmUID("1.2.840.10008.5.1.4.32.3", "General Purpose Performed Procedure Step SOP Class", SOPClass)
  const InstanceAvailabilityNotificationSOPClass := DcmUID("1.2.840.10008.5.1.4.33", "Instance Availability Notification SOP Class", SOPClass)
  const RTBeamsDeliveryInstructionStorageSupplement74FrozenDraft := DcmUID("1.2.840.10008.5.1.4.34.1", "RT Beams Delivery Instruction Storage (Supplement 74 Frozen Draft)", SOPClass)
  const RTConventionalMachineVerificationSupplement74FrozenDraft := DcmUID("1.2.840.10008.5.1.4.34.2", "RT Conventional Machine Verification (Supplement 74 Frozen Draft)", SOPClass)
  const RTIonMachineVerificationSupplement74FrozenDraft := DcmUID("1.2.840.10008.5.1.4.34.3", "RT Ion Machine Verification (Supplement 74 Frozen Draft)", SOPClass)
  const UnifiedWorklistAndProcedureStepSOPClass := DcmUID("1.2.840.10008.5.1.4.34.4", "Unified Worklist and Procedure Step Service Class", SOPClass)
  const UnifiedProcedureStepPushSOPClass := DcmUID("1.2.840.10008.5.1.4.34.4.1", "Unified Procedure Step \U{013E} Push SOP Class", SOPClass)
  const UnifiedProcedureStepWatchSOPClass := DcmUID("1.2.840.10008.5.1.4.34.4.2", "Unified Procedure Step \U{013E} Watch SOP Class", SOPClass)
  const UnifiedProcedureStepPullSOPClass := DcmUID("1.2.840.10008.5.1.4.34.4.3", "Unified Procedure Step \U{013E} Pull SOP Class", SOPClass)
  const UnifiedProcedureStepEventSOPClass := DcmUID("1.2.840.10008.5.1.4.34.4.4", "Unified Procedure Step \U{013E} Event SOP Class", SOPClass)
  const UnifiedWorklistAndProcedureStepSOPInstance := DcmUID("1.2.840.10008.5.1.4.34.5", "Unified Worklist and Procedure Step SOP Instance", SOPInstance)
  const GeneralRelevantPatientInformationQuery := DcmUID("1.2.840.10008.5.1.4.37.1", "General Relevant Patient Information Query", SOPClass)
  const BreastImagingRelevantPatientInformationQuery := DcmUID("1.2.840.10008.5.1.4.37.2", "Breast Imaging Relevant Patient Information Query", SOPClass)
  const CardiacRelevantPatientInformationQuery := DcmUID("1.2.840.10008.5.1.4.37.3", "Cardiac Relevant Patient Information Query", SOPClass)
  const HangingProtocolStorage := DcmUID("1.2.840.10008.5.1.4.38.1", "Hanging Protocol Storage", SOPClass)
  const HangingProtocolInformationModelFIND := DcmUID("1.2.840.10008.5.1.4.38.2", "Hanging Protocol Information Model \U{013E} FIND", SOPClass)
  const HangingProtocolInformationModelMOVE := DcmUID("1.2.840.10008.5.1.4.38.3", "Hanging Protocol Information Model \U{013E} MOVE", SOPClass)
  const ProductCharacteristicsQuerySOPClass := DcmUID("1.2.840.10008.5.1.4.41", "Product Characteristics Query SOP Class", SOPClass)
  const SubstanceApprovalQuerySOPClass := DcmUID("1.2.840.10008.5.1.4.42", "Substance Approval Query SOP Class", SOPClass)

  /** The registrations of the static constructor, in order. */
  const Registered: seq<DcmUID> := [
    VerificationSOPClass, ImplicitVRLittleEndian, ExplicitVRLittleEndian, DeflatedExplicitVRLittleEndian,
    ExplicitVRBigEndian, MPEG2MainProfileMainLevel, JPEGBaselineProcess1, JPEGExtendedProcess2_4,
    JPEGExtendedProcess3_5RETIRED, JPEGSpectralSelectionNonHierarchicalProcess6_8RETIRED,
    JPEGSpectralSelectionNonHierarchicalProcess7_9RETIRED,
    JPEGFullProgressionNonHierarchicalProcess10_12RETIRED,
    JPEGFullProgressionNonHierarchicalProcess11_13RETIRED, JPEGLosslessNonHierarchicalProcess14,
    JPEGLosslessNonHierarchicalProcess15RETIRED, JPEGExtendedHierarchicalProcess16_18RETIRED,
    JPEGExtendedHierarchicalProcess17_19RETIRED, JPEGSpectralSelectionHierarchicalProcess20_22RETIRED,
    JPEGSpectralSelectionHierarchicalProcess21_23RETIRED, JPEGFullProgressionHierarchicalProcess24_26RETIRED,
    JPEGFullProgressionHierarchicalProcess25_27RETIRED, JPEGLosslessHierarchicalProcess28RETIRED,
    JPEGLosslessHierarchicalProcess29RETIRED, JPEGLosslessProcess14SV1, JPEGLSLosslessImageCompression,
    JPEGLSLossyNearLosslessImageCompression, JPEG2000ImageCompressionLosslessOnly, JPEG2000ImageCompression,
    JPEG2000Part2MulticomponentImageCompressionLosslessOnly, JPEG2000Part2MulticomponentImageCompression,
    JPIPReferenced, JPIPReferencedDeflate, RLELossless, RFC2557MIMEEncapsulation, XMLEncoding,
    StorageCommitmentPushModelSOPClass, StorageCommitmentPushModelSOPInstance,
    StorageCommitmentPullModelSOPClassRETIRED, StorageCommitmentPullModelSOPInstanceRETIRED,
    MediaStorageDirectoryStorage, TalairachBrainAtlasFrameOfReference, SPM2GRAYFrameOfReference,
    SPM2WHITEFrameOfReference, SPM2CSFFrameOfReference, SPM2BRAINMASKFrameOfReference,
    SPM2AVG305T1FrameOfReference, SPM2AVG152T1FrameOfReference, SPM2AVG152T2FrameOfReference,
    SPM2AVG152PDFrameOfReference, SPM2SINGLESUBJT1FrameOfReference, SPM2T1FrameOfReference,
    SPM2T2FrameOfReference, SPM2PDFrameOfReference, SPM2EPIFrameOfReference, SPM2FILT1FrameOfReference,
    SPM2PETFrameOfReference, SPM2TRANSMFrameOfReference, SPM2SPECTFrameOfReference,
    ICBM452T1FrameOfReference, ICBMSingleSubjectMRIFrameOfReference, ProceduralEventLoggingSOPClass,
    ProceduralEventLoggingSOPInstance, SubstanceAdministrationLoggingSOPClass,
    SubstanceAdministrationLoggingSOPInstance, BasicStudyContentNotificationSOPClassRETIRED,
    LDAPDicomDeviceName, LDAPDicomAssociationInitiator, LDAPDicomAssociationAcceptor, LDAPDicomHostname,
    LDAPDicomPort, LDAPDicomSOPClass, LDAPDicomTransferRole, LDAPDicomTransferSyntax,
    LDAPDicomPrimaryDeviceType, LDAPDicomRelatedDeviceReference, LDAPDicomPreferredCalledAETitle,
    LDAPDicomDescription, LDAPDicomTLSCyphersuite, LDAPDicomAuthorizedNodeCertificateReference,
    LDAPDicomThisNodeCertificateReference, LDAPDicomInstalled, LDAPDicomStationName,
    LDAPDicomDeviceSerialNumber, LDAPDicomInstitutionName, LDAPDicomInstitutionAddress,
    LDAPDicomInstitutionDepartmentName, LDAPDicomIssuerOfPatientID, LDAPDicomManufacturer,
    LDAPDicomPreferredCallingAETitle, LDAPDicomSupportedCharacterSet, LDAPDicomManufacturerModelName,
    LDAPDicomSoftwareVersion, LDAPDicomVendorData, LDAPDicomAETitle, LDAPDicomNetworkConnectionReference,
    LDAPDicomApplicationCluster, LDAPDicomConfigurationRoot, LDAPDicomDevicesRoot,
    LDAPDicomUniqueAETitlesRegistryRoot, LDAPDicomDevice, LDAPDicomNetworkAE, LDAPDicomNetworkConnection,
    LDAPDicomUniqueAETitle, LDAPDicomTransferCapability, DICOMControlledTerminology, DICOMUIDRegistry,
    DICOMApplicationContextName, DetachedPatientManagementSOPClassRETIRED,
    DetachedPatientManagementMetaSOPClassRETIRED, DetachedVisitManagementSOPClassRETIRED,
    DetachedStudyManagementSOPClassRETIRED, StudyComponentManagementSOPClassRETIRED,
    ModalityPerformedProcedureStepSOPClass, ModalityPerformedProcedureStepRetrieveSOPClass,
    ModalityPerformedProcedureStepNotificationSOPClass, DetachedResultsManagementSOPClassRETIRED,
    DetachedResultsManagementMetaSOPClassRETIRED, DetachedStudyManagementMetaSOPClassRETIRED,
    DetachedInterpretationManagementSOPClassRETIRED, BasicFilmSessionSOPClass, PrintJobSOPClass,
    BasicAnnotationBoxSOPClass, PrinterSOPClass, PrinterConfigurationRetrievalSOPClass, PrinterSOPInstance,
    PrinterConfigurationRetrievalSOPInstance, BasicColorPrintManagementMetaSOPClass,
    ReferencedColorPrintManagementMetaSOPClassRETIRED, BasicFilmBoxSOPClass, VOILUTBoxSOPClass,
    PresentationLUTSOPClass, ImageOverlayBoxSOPClassRETIRED, BasicPrintImageOverlayBoxSOPClassRETIRED,
    PrintQueueSOPInstanceRETIRED, PrintQueueManagementSOPClassRETIRED, StoredPrintStorageSOPClassRETIRED,
    HardcopyGrayscaleImageStorageSOPClassRETIRED, HardcopyColorImageStorageSOPClassRETIRED,
    PullPrintRequestSOPClassRETIRED, PullStoredPrintManagementMetaSOPClassRETIRED,
    MediaCreationManagementSOPClassUID, BasicGrayscaleImageBoxSOPClass, BasicColorImageBoxSOPClass,
    ReferencedImageBoxSOPClassRETIRED, BasicGrayscalePrintManagementMetaSOPClass,
    ReferencedGrayscalePrintManagementMetaSOPClassRETIRED, ComputedRadiographyImageStorage,
    DigitalXRayImageStorageForPresentation, DigitalXRayImageStorageForProcessing,
    DigitalMammographyXRayImageStorageForPresentation, DigitalMammographyXRayImageStorageForProcessing,
    DigitalIntraoralXRayImageStorageForPresentation, DigitalIntraoralXRayImageStorageForProcessing,
    StandaloneModalityLUTStorageRETIRED, EncapsulatedPDFStorage, EncapsulatedCDAStorage,
    StandaloneVOILUTStorageRETIRED, GrayscaleSoftcopyPresentationStateStorageSOPClass,
    ColorSoftcopyPresentationStateStorageSOPClass, PseudoColorSoftcopyPresentationStateStorageSOPClass,
    BlendingSoftcopyPresentationStateStorageSOPClass, XRayAngiographicImageStorage, EnhancedXAImageStorage,
    XRayRadiofluoroscopicImageStorage, EnhancedXRFImageStorage, XRayAngiographicBiPlaneImageStorageRETIRED,
    PositronEmissionTomographyImageStorage, StandalonePETCurveStorageRETIRED, XRay3DAngiographicImageStorage,
    XRay3DCraniofacialImageStorage, CTImageStorage, EnhancedCTImageStorage, NuclearMedicineImageStorage,
    UltrasoundMultiframeImageStorageRETIRED, UltrasoundMultiframeImageStorage, MRImageStorage,
    EnhancedMRImageStorage, MRSpectroscopyStorage, RTImageStorage, RTDoseStorage, RTStructureSetStorage,
    RTBeamsTreatmentRecordStorage, RTPlanStorage, RTBrachyTreatmentRecordStorage,
    RTTreatmentSummaryRecordStorage, RTIonPlanStorage, RTIonBeamsTreatmentRecordStorage,
    NuclearMedicineImageStorageRETIRED, UltrasoundImageStorageRETIRED, UltrasoundImageStorage,
    RawDataStorage, SpatialRegistrationStorage, SpatialFiducialsStorage,
    DeformableSpatialRegistrationStorage, SegmentationStorage, RealWorldValueMappingStorage,
    SecondaryCaptureImageStorage, MultiframeSingleBitSecondaryCaptureImageStorage,
    MultiframeGrayscaleByteSecondaryCaptureImageStorage, MultiframeGrayscaleWordSecondaryCaptureImageStorage,
    MultiframeTrueColorSecondaryCaptureImageStorage, VLImageStorageTrialRETIRED, VLEndoscopicImageStorage,
    VideoEndoscopicImageStorage, VLMicroscopicImageStorage, VideoMicroscopicImageStorage,
    VLSlideCoordinatesMicroscopicImageStorage, VLPhotographicImageStorage, VideoPhotographicImageStorage,
    OphthalmicPhotography8BitImageStorage, OphthalmicPhotography16BitImageStorage,
    StereometricRelationshipStorage, OphthalmicTomographyImageStorage, VLMultiframeImageStorageTrialRETIRED,
    StandaloneOverlayStorageRETIRED, TextSRStorageTrialRETIRED, BasicTextSRStorage,
    AudioSRStorageTrialRETIRED, EnhancedSRStorage, DetailSRStorageTrialRETIRED, ComprehensiveSRStorage,
    ComprehensiveSRStorageTrialRETIRED, ProcedureLogStorage, MammographyCADSRStorage,
    KeyObjectSelectionDocumentStorage, ChestCADSRStorage, XRayRadiationDoseSRStorage,
    StandaloneCurveStorageRETIRED, WaveformStorageTrialRETIRED, TwelveLeadECGWaveformStorage,
    GeneralECGWaveformStorage, AmbulatoryECGWaveformStorage, HemodynamicWaveformStorage,
    CardiacElectrophysiologyWaveformStorage, BasicVoiceAudioWaveformStorage,
    PatientRootQueryRetrieveInformationModelFIND, PatientRootQueryRetrieveInformationModelMOVE,
    PatientRootQueryRetrieveInformationModelGET, StudyRootQueryRetrieveInformationModelFIND,
    StudyRootQueryRetrieveInformationModelMOVE, StudyRootQueryRetrieveInformationModelGET,
    PatientStudyOnlyQueryRetrieveInformationModelFINDRETIRED,
    PatientStudyOnlyQueryRetrieveInformationModelMOVERETIRED,
    PatientStudyOnlyQueryRetrieveInformationModelGETRETIRED, ModalityWorklistInformationModelFIND,
    GeneralPurposeWorklistManagementMetaSOPClass, GeneralPurposeWorklistInformationModelFIND,
    GeneralPurposeScheduledProcedureStepSOPClass, GeneralPurposePerformedProcedureStepSOPClass,
    InstanceAvailabilityNotificationSOPClass, RTBeamsDeliveryInstructionStorageSupplement74FrozenDraft,
    RTConventionalMachineVerificationSupplement74FrozenDraft,
    RTIonMachineVerificationSupplement74FrozenDraft, UnifiedWorklistAndProcedureStepSOPClass,
    UnifiedProcedureStepPushSOPClass, UnifiedProcedureStepWatchSOPClass, UnifiedProcedureStepPullSOPClass,
    UnifiedProcedureStepEventSOPClass, UnifiedWorklistAndProcedureStepSOPInstance,
    GeneralRelevantPatientInformationQuery, BreastImagingRelevantPatientInformationQuery,
    CardiacRelevantPatientInformationQuery, HangingProtocolStorage, HangingProtocolInformationModelFIND,
    HangingProtocolInformationModelMOVE, ProductCharacteristicsQuerySOPClass, SubstanceApprovalQuerySOPClass
  ]

  const Registry: map<string, DcmUID> := BuildRegistry(Registered)
}
