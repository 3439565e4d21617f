/** The UID registry of trunk/Dicom/Data/DcmUID.cs: a UID is its dotted text,
    a description and a type. The registry maps each registered UID text to
    its entry; a lookup of an unregistered text makes a new Unknown entry. */
module UidTrunk {
  datatype UidType = TransferSyntax | SOPClass | MetaSOPClass | SOPInstance | ApplicationContextName
                   | CodingScheme | SynchronizationFrameOfReference | Unknown

  datatype DcmUID = DcmUID(uid: string, description: string, uidType: UidType)

  /** The argument of `Equals(object)`: a UID, a string, or anything else. */
  datatype Object = UidObject(u: DcmUID) | StringObject(s: string) | OtherObject

  /** `ToString`: the bare UID for an unknown UID, "==" and the description otherwise. */
  function ToString(u: DcmUID): (s: string)
    ensures u.uidType == Unknown ==> s == u.uid
    ensures u.uidType != Unknown ==> |s| >= 2 && s[..2] == "==" && s[2..] == u.description
  {
    if u.uidType == Unknown then u.uid else "==" + u.description
  }

  /** `Equals(object)`: only the UID text counts, never the description or type. */
  function Equals(u: DcmUID, obj: Object): (b: bool)
    ensures b <==> (obj.UidObject? && obj.u.uid == u.uid) || (obj.StringObject? && obj.s == u.uid)
  {
    match obj
    case UidObject(o) => o.uid == u.uid
    case StringObject(s) => s == u.uid
    case OtherObject => false
  }

  /** Equality between UIDs is symmetric, and a UID equals its own text. */
  lemma EqualsSymmetric(a: DcmUID, b: DcmUID)
    ensures Equals(a, UidObject(b)) == Equals(b, UidObject(a))
    ensures Equals(a, StringObject(a.uid))
  {
  }

  /** Every key of the registry is the UID text of its entry. */
  ghost predicate Keyed(r: map<string, DcmUID>) {
    forall k :: k in r ==> r[k].uid == k
  }

  /** The static constructor adds each registered UID under its text, in order. */
  function BuildRegistry(es: seq<DcmUID>): (r: map<string, DcmUID>)
    ensures Keyed(r)
    ensures forall i :: 0 <= i < |es| ==> es[i].uid in r
    ensures forall k :: k in r ==> r[k] in es
  {
    if |es| == 0 then map[] else
      var r := BuildRegistry(es[..|es| - 1]);
      var last := es[|es| - 1];
      r[last.uid := last]
  }

  /** A UID registered once (no later entry has the same text) is found as itself. */
  lemma {:induction false} BuildRegistryFinds(es: seq<DcmUID>, i: nat)
    requires i < |es|
    requires forall j :: i < j < |es| ==> es[j].uid != es[i].uid
    ensures BuildRegistry(es)[es[i].uid] == es[i]
  {
    if i < |es| - 1 {
      BuildRegistryFinds(es[..|es| - 1], i);
    }
  }

  /** `DcmUIDs.Lookup(uid)`: the registered entry, or a new Unknown one. Either way
      its text is `uid`. */
  function Lookup(uid: string): (u: DcmUID)
    ensures u.uid == uid
    ensures uid in Registry ==> u == Registry[uid]
    ensures uid !in Registry ==> u == DcmUID(uid, "Unknown UID", Unknown)
  {
    if uid in Registry then Registry[uid] else DcmUID(uid, "Unknown UID", Unknown)
  }

  /** Looking up a UID's text and comparing gives the same UID text back: a lookup
      always `Equals` the string it was given. */
  lemma LookupEqualsItsText(uid: string)
    ensures Equals(Lookup(uid), StringObject(uid))
  {
  }

  /** A registered UID that no later registration shadows is what `Lookup` returns for its text. */
  lemma LookupRegistered(i: nat)
    requires i < |Registered|
    requires forall j :: i < j < |Registered| ==> Registered[j].uid != Registered[i].uid
    ensures Lookup(Registered[i].uid) == Registered[i]
  {
    BuildRegistryFinds(Registered, i);
  }

  // The UID constants of the `DcmUIDs` class.
  const ImplicitVRLittleEndian := DcmUID("1.2.840.10008.1.2", "Implicit VR Little Endian", TransferSyntax)
  const ExplicitVRLittleEndian := DcmUID("1.2.840.10008.1.2.1", "Explicit VR Little Endian", TransferSyntax)
  const DeflatedExplicitVRLittleEndian := DcmUID("1.2.840.10008.1.2.1.99", "Deflated Explicit VR Little Endian", TransferSyntax)
  const ExplicitVRBigEndian := DcmUID("1.2.840.10008.1.2.2", "Explicit VR Big Endian", TransferSyntax)
  const JPEGProcess1 := DcmUID("1.2.840.10008.1.2.4.50", "JPEG Baseline (Process 1)", TransferSyntax)
  const JPEGProcess2_4 := DcmUID("1.2.840.10008.1.2.4.51", "JPEG Extended (Process 2 & 4)", TransferSyntax)
  const JPEGProcess3_5Retired := DcmUID("1.2.840.10008.1.2.4.52", "JPEG Extended (Process 3 & 5) (Retired)", TransferSyntax)
  const JPEGProcess6_8Retired := DcmUID("1.2.840.10008.1.2.4.53", "JPEG Spectral Selection, Non-Hierarchical (Process 6 & 8) (Retired)", TransferSyntax)
  const JPEGProcess7_9Retired := DcmUID("1.2.840.10008.1.2.4.54", "JPEG Spectral Selection, Non-Hierarchical (Process 7 & 9) (Retired)", TransferSyntax)
  const JPEGProcess10_12Retired := DcmUID("1.2.840.10008.1.2.4.55", "JPEG Full Progression, Non-Hierarchical (Process 10 & 12) (Retired)", TransferSyntax)
  const JPEGProcess11_13Retired := DcmUID("1.2.840.10008.1.2.4.56", "JPEG Full Progression, Non-Hierarchical (Process 11 & 13) (Retired)", TransferSyntax)
  const JPEGProcess14 := DcmUID("1.2.840.10008.1.2.4.57", "JPEG Lossless, Non-Hierarchical (Process 14)", TransferSyntax)
  const JPEGProcess15Retired := DcmUID("1.2.840.10008.1.2.4.58", "JPEG Lossless, Non-Hierarchical (Process 15) (Retired)", TransferSyntax)
  const JPEGProcess16_18Retired := DcmUID("1.2.840.10008.1.2.4.59", "JPEG Extended, Hierarchical (Process 16 & 18) (Retired)", TransferSyntax)
  const JPEGProcess17_19Retired := DcmUID("1.2.840.10008.1.2.4.60", "JPEG Extended, Hierarchical (Process 17 & 19) (Retired)", TransferSyntax)
  const JPEGProcess20_22Retired := DcmUID("1.2.840.10008.1.2.4.61", "JPEG Spectral Selection, Hierarchical (Process 20 & 22) (Retired)", TransferSyntax)
  const JPEGProcess21_23Retired := DcmUID("1.2.840.10008.1.2.4.62", "JPEG Spectral Selection, Hierarchical (Process 21 & 23) (Retired)", TransferSyntax)
  const JPEGProcess24_26Retired := DcmUID("1.2.840.10008.1.2.4.63", "JPEG Full Progression, Hierarchical (Process 24 & 26) (Retired)", TransferSyntax)
  const JPEGProcess25_27Retired := DcmUID("1.2.840.10008.1.2.4.64", "JPEG Full Progression, Hierarchical (Process 25 & 27) (Retired)", TransferSyntax)
  const JPEGProcess28Retired := DcmUID("1.2.840.10008.1.2.4.65", "JPEG Lossless, Hierarchical (Process 28) (Retired)", TransferSyntax)
  const JPEGProcess29Retired := DcmUID("1.2.840.10008.1.2.4.66", "JPEG Lossless, Hierarchical (Process 29) (Retired)", TransferSyntax)
  const JPEGProcess14SV1 := DcmUID("1.2.840.10008.1.2.4.70", "JPEG Lossless, Non-Hierarchical, First-Order Prediction (Process 14 [Selection Value 1])", TransferSyntax)
  const JPEGLSLossless := DcmUID("1.2.840.10008.1.2.4.80", "JPEG-LS Lossless Image Compression", TransferSyntax)
  const JPEGLSNearLossless := DcmUID("1.2.840.10008.1.2.4.81", "JPEG-LS Lossy (Near-Lossless) Image Compression", TransferSyntax)
  const JPEG2000Lossless := DcmUID("1.2.840.10008.1.2.4.90", "JPEG 2000 Lossless Image Compression", TransferSyntax)
  const JPEG2000Lossy := DcmUID("1.2.840.10008.1.2.4.91", "JPEG 2000 Lossy Image Compression", TransferSyntax)
  const MPEG2 := DcmUID("1.2.840.10008.1.2.4.100", "MPEG2 Main Profile @ Main Level", TransferSyntax)
  const RLELossless := DcmUID("1.2.840.10008.1.2.5", "RLE Lossless", TransferSyntax)
  const Verification := DcmUID("1.2.840.10008.1.1", "Verification SOP Class", SOPClass)
  const MediaStorageDirectoryStorage := DcmUID("1.2.840.10008.1.3.10", "Media Storage Directory Storage", SOPClass)
  const BasicStudyContentNotification := DcmUID("1.2.840.10008.1.9", "Basic Study Content Notification SOP Class", SOPClass)
  const StorageCommitmentPushModel := DcmUID("1.2.840.10008.1.20.1", "Storage Commitment Push Model SOP Class", SOPClass)
  const StorageCommitmentPullModel := DcmUID("1.2.840.10008.1.20.2", "Storage Commitment Pull Model SOP Class", SOPClass)
  const ProceduralEventLoggingSOPClass := DcmUID("1.2.840.10008.1.40", "Procedural Event Logging SOP Class", SOPClass)
  const DetachedPatientManagement := DcmUID("1.2.840.10008.3.1.2.1.1", "Detached Patient Management SOP Class", SOPClass)
  const DetachedVisitManagement := DcmUID("1.2.840.10008.3.1.2.2.1", "Detached Visit Management SOP Class", SOPClass)
  const DetachedStudyManagement := DcmUID("1.2.840.10008.3.1.2.3.1", "Detached Study Management SOP Class", SOPClass)
  const StudyComponentManagement := DcmUID("1.2.840.10008.3.1.2.3.2", "Study Component Management SOP Class", SOPClass)
  const ModalityPerformedProcedureStep := DcmUID("1.2.840.10008.3.1.2.3.3", "Modality Performed Procedure Step SOP Class", SOPClass)
  const ModalityPerformedProcedureStepRetrieve := DcmUID("1.2.840.10008.3.1.2.3.4", "Modality Performed Procedure Step Retrieve SOP Class", SOPClass)
  const ModalityPerformedProcedureStepNotification := DcmUID("1.2.840.10008.3.1.2.3.5", "Modality Performed Procedure Step Notification SOP Class", SOPClass)
  const DetachedResultsManagement := DcmUID("1.2.840.10008.3.1.2.5.1", "Detached Results Management SOP Class", SOPClass)
  const DetachedInterpretationManagement := DcmUID("1.2.840.10008.3.1.2.6.1", "Detached Interpretation Management SOP Class", SOPClass)
  const StorageServiceClass := DcmUID("1.2.840.10008.4.2", "Storage Service Class", SOPClass)
  const BasicFilmSession := DcmUID("1.2.840.10008.5.1.1.1", "Basic Film Session SOP Class", SOPClass)
  const BasicFilmBoxSOP := DcmUID("1.2.840.10008.5.1.1.2", "Basic Film Box SOP Class", SOPClass)
  const BasicGrayscaleImageBox := DcmUID("1.2.840.10008.5.1.1.4", "Basic Grayscale Image Box SOP Class", SOPClass)
  const BasicColorImageBox := DcmUID("1.2.840.10008.5.1.1.4.1", "Basic Color Image Box SOP Class", SOPClass)
  const ReferencedImageBoxRetired := DcmUID("1.2.840.10008.5.1.1.4.2", "Referenced Image Box SOP Class (Retired)", SOPClass)
  const PrintJob := DcmUID("1.2.840.10008.5.1.1.14", "Print Job SOP Class", SOPClass)
  const BasicAnnotationBox := DcmUID("1.2.840.10008.5.1.1.15", "Basic Annotation Box SOP Class", SOPClass)
  const Printer := DcmUID("1.2.840.10008.5.1.1.16", "Printer SOP Class", SOPClass)
  const PrinterConfigurationRetrieval := DcmUID("1.2.840.10008.5.1.1.16.376", "Printer Configuration Retrieval SOP Class", SOPClass)
  const VOILUTBox := DcmUID("1.2.840.10008.5.1.1.22", "VOI LUT Box SOP Class", SOPClass)
  const PresentationLUT := DcmUID("1.2.840.10008.5.1.1.23", "Presentation LUT SOP Class", SOPClass)
  const ImageOverlayBox := DcmUID("1.2.840.10008.5.1.1.24", "Image Overlay Box SOP Class (Retired)", SOPClass)
  const BasicPrintImageOverlayBox := DcmUID("1.2.840.10008.5.1.1.24.1", "Basic Print Image Overlay Box SOP Class", SOPClass)
  const PrintQueueManagement := DcmUID("1.2.840.10008.5.1.1.26", "Print Queue Management SOP Class", SOPClass)
  const StoredPrintStorage := DcmUID("1.2.840.10008.5.1.1.27", "Stored Print Storage SOP Class", SOPClass)
  const HardcopyGrayscaleImageStorage := DcmUID("1.2.840.10008.5.1.1.29", "Hardcopy Grayscale Image Storage SOP Class", SOPClass)
  const HardcopyColorImageStorage := DcmUID("1.2.840.10008.5.1.1.30", "Hardcopy Color Image Storage SOP Class", SOPClass)
  const PullPrintRequest := DcmUID("1.2.840.10008.5.1.1.31", "Pull Print Request SOP Class", SOPClass)
  const MediaCreationManagementSOPClass := DcmUID("1.2.840.10008.5.1.1.33", "Media Creation Management SOP Class", SOPClass)
  const ComputedRadiographyImageStorage := DcmUID("1.2.840.10008.5.1.4.1.1.1", "Computed Radiography Image Storage", SOPClass)
  const DigitalXRayImageStorageForPresentation := DcmUID("1.2.840.10008.5.1.4.1.1.1.1", "Digital X-Ray Image Storage - For Presentation", SOPClass)
  const DigitalXRayImageStorageForProcessing := DcmUID("1.2.840.10008.5.1.4.1.1.1.1.1", "Digital X-Ray Image Storage - For Processing", SOPClass)
  const DigitalMammographyXRayImageStorageForPresentation := DcmUID("1.2.840.10008.5.1.4.1.1.1.2", "Digital Mammography X-Ray Image Storage - For Presentation", SOPClass)
  const DigitalMammographyXRayImageStorageForProcessing := DcmUID("1.2.840.10008.5.1.4.1.1.1.2.1", "Digital Mammography X-Ray Image Storage - For Processing", SOPClass)
  const DigitalIntraoralXRayImageStorageForPresentation := DcmUID("1.2.840.10008.5.1.4.1.1.1.3", "Digital Intra-oral X-Ray Image Storage - For Presentation", SOPClass)
  const DigitalIntraoralXRayImageStorageForProcessing := DcmUID("1.2.840.10008.5.1.4.1.1.1.3.1", "Digital Intra-oral X-Ray Image Storage - For Processing", SOPClass)
  const CTImageStorage := DcmUID("1.2.840.10008.5.1.4.1.1.2", "CT Image Storage", SOPClass)
  const EnhancedCTImageStorage := DcmUID("1.2.840.10008.5.1.4.1.1.2.1", "Enhanced CT Image Storage", SOPClass)
  const UltrasoundMultiframeImageStorageRetired := DcmUID("1.2.840.10008.5.1.4.1.1.3", "Ultrasound Multi-frame Image Storage (Retired)", SOPClass)
  const UltrasoundMultiframeImageStorage := DcmUID("1.2.840.10008.5.1.4.1.1.3.1", "Ultrasound Multi-frame Image Storage", SOPClass)
  const MRImageStorage := DcmUID("1.2.840.10008.5.1.4.1.1.4", "MR Image Storage", SOPClass)
  const EnhancedMRImageStorage := DcmUID("1.2.840.10008.5.1.4.1.1.4.1", "Enhanced MR Image Storage", SOPClass)
  const MRSpectroscopyStorage := DcmUID("1.2.840.10008.5.1.4.1.1.4.2", "MR Spectroscopy Storage", SOPClass)
  const NuclearMedicineImageStorageRetired := DcmUID("1.2.840.10008.5.1.4.1.1.5", "Nuclear Medicine Image Storage (Retired)", SOPClass)
  const UltrasoundImageStorageRetired := DcmUID("1.2.840.10008.5.1.4.1.1.6", "Ultrasound Image Storage (Retired)", SOPClass)
  const UltrasoundImageStorage := DcmUID("1.2.840.10008.5.1.4.1.1.6.1", "Ultrasound Image Storage", SOPClass)
  const SecondaryCaptureImageStorage := DcmUID("1.2.840.10008.5.1.4.1.1.7", "Secondary Capture Image Storage", SOPClass)
  const MultiframeSingleBitSecondaryCaptureImageStorage := DcmUID("1.2.840.10008.5.1.4.1.1.7.1", "Multi-frame Single Bit Secondary Capture Image Storage", SOPClass)
  const MultiframeGrayscaleByteSecondaryCaptureImageStorage := DcmUID("1.2.840.10008.5.1.4.1.1.7.2", "Multi-frame Grayscale Byte Secondary Capture Image Storage", SOPClass)
  const MultiframeGrayscaleWordSecondaryCaptureImageStorage := DcmUID("1.2.840.10008.5.1.4.1.1.7.3", "Multi-frame Grayscale Word Secondary Capture Image Storage", SOPClass)
  const MultiframeTrueColorSecondaryCaptureImageStorage := DcmUID("1.2.840.10008.5.1.4.1.1.7.4", "Multi-frame True Color Secondary Capture Image Storage", SOPClass)
  const StandaloneOverlayStorage := DcmUID("1.2.840.10008.5.1.4.1.1.8", "Standalone Overlay Storage", SOPClass)
  const StandaloneCurveStorage := DcmUID("1.2.840.10008.5.1.4.1.1.9", "Standalone Curve Storage", SOPClass)
  const TwelveLeadECGWaveformStorage := DcmUID("1.2.840.10008.5.1.4.1.1.9.1.1", "12-lead ECG Waveform Storage", SOPClass)
  const GeneralECGWaveformStorage := DcmUID("1.2.840.10008.5.1.4.1.1.9.1.2", "General ECG Waveform Storage", SOPClass)
  const AmbulatoryECGWaveformStorage := DcmUID("1.2.840.10008.5.1.4.1.1.9.1.3", "Ambulatory ECG Waveform Storage", SOPClass)
  const HemodynamicWaveformStorage := DcmUID("1.2.840.10008.5.1.4.1.1.9.2.1", "Hemodynamic Waveform Storage", SOPClass)
  const CardiacElectrophysiologyWaveformStorage := DcmUID("1.2.840.10008.5.1.4.1.1.9.3.1", "Cardiac Electrophysiology Waveform Storage", SOPClass)
  const BasicVoiceAudioWaveformStorage := DcmUID("1.2.840.10008.5.1.4.1.1.9.4.1", "Basic Voice Audio Waveform Storage", SOPClass)
  const StandaloneModalityLUTStorage := DcmUID("1.2.840.10008.5.1.4.1.1.10", "Standalone Modality LUT Storage", SOPClass)
  const StandaloneVOILUTStorage := DcmUID("1.2.840.10008.5.1.4.1.1.11", "Standalone VOI LUT Storage", SOPClass)
  const GrayscaleSoftcopyPresentationStateStorage := DcmUID("1.2.840.10008.5.1.4.1.1.11.1", "Grayscale Softcopy Presentation State Storage SOP Class", SOPClass)
  const ColorSoftcopyPresentationStateStorage := DcmUID("1.2.840.10008.5.1.4.1.1.11.2", "Color Softcopy Presentation State Storage SOP Class", SOPClass)
  const PseudoColorSoftcopyPresentationStateStorage := DcmUID("1.2.840.10008.5.1.4.1.1.11.3", "Pseudo-Color Softcopy Presentation State Storage SOP Class", SOPClass)
  const BlendingSoftcopyPresentationStateStorage := DcmUID("1.2.840.10008.5.1.4.1.1.11.4", "Blending Softcopy Presentation State Storage SOP Class", SOPClass)
  const XRayAngiographicImageStorage := DcmUID("1.2.840.10008.5.1.4.1.1.12.1", "X-Ray Angiographic Image Storage", SOPClass)
  const EnhancedXRayAngiographicImageStorage := DcmUID("1.2.840.10008.5.1.4.1.1.12.1.1", "Enhanced X-Ray Angiographic Image Storage", SOPClass)
  const XRayRadiofluoroscopicImageStorage := DcmUID("1.2.840.10008.5.1.4.1.1.12.2", "X-Ray Radiofluoroscopic Image Storage", SOPClass)
  const EnhancedXRayRadiofluoroscopicImageStorage := DcmUID("1.2.840.10008.5.1.4.1.1.12.2.1", "Enhanced X-Ray Radiofluoroscopic Image Storage", SOPClass)
  const XRayAngiographicBiPlaneImageStorageRetired := DcmUID("1.2.840.10008.5.1.4.1.1.12.3", "X-Ray Angiographic Bi-Plane Image Storage (Retired)", SOPClass)
  const NuclearMedicineImageStorage := DcmUID("1.2.840.10008.5.1.4.1.1.20", "Nuclear Medicine Image Storage", SOPClass)
  const RawDataStorage := DcmUID("1.2.840.10008.5.1.4.1.1.66", "Raw Data Storage", SOPClass)
  const SpatialRegistrationStorage := DcmUID("1.2.840.10008.5.1.4.1.1.66.1", "Spatial Registration Storage", SOPClass)
  const SpatialFiducialsStorage := DcmUID("1.2.840.10008.5.1.4.1.1.66.2", "Spatial Fiducials Storage", SOPClass)
  const RealWorldValueMappingStorage := DcmUID("1.2.840.10008.5.1.4.1.1.67", "Real World Value Mapping Storage", SOPClass)
  const VLImageStorageRetired := DcmUID("1.2.840.10008.5.1.4.1.1.77.1", "VL Image Storage (Retired)", SOPClass)
  const VLMultiframeImageStorageRetired := DcmUID("1.2.840.10008.5.1.4.1.1.77.2", "VL Multi-frame Image Storage (Retired)", SOPClass)
  const VLEndoscopicImageStorage := DcmUID("1.2.840.10008.5.1.4.1.1.77.1.1", "VL Endoscopic Image Storage", SOPClass)
  const VLMicroscopicImageStorage := DcmUID("1.2.840.10008.5.1.4.1.1.77.1.2", "VL Microscopic Image Storage", SOPClass)
  const VLSlideCoordinatesMicroscopicImageStorage := DcmUID("1.2.840.10008.5.1.4.1.1.77.1.3", "VL Slide-Coordinates Microscopic Image Storage", SOPClass)
  const VLPhotographicImageStorage := DcmUID("1.2.840.10008.5.1.4.1.1.77.1.4", "VL Photographic Image Storage", SOPClass)
  const VideoEndoscopicImageStorage := DcmUID("1.2.840.10008.5.1.4.1.1.77.1.1.1", "Video Endoscopic Image Storage", SOPClass)
  const VideoMicroscopicImageStorage := DcmUID("1.2.840.10008.5.1.4.1.1.77.1.2.1", "Video Microscopic Image Storage", SOPClass)
  const VideoPhotographicImageStorage := DcmUID("1.2.840.10008.5.1.4.1.1.77.1.4.1", "Video Photographic Image Storage", SOPClass)
  const OphthalmicPhotography8BitImageStorage := DcmUID("1.2.840.10008.5.1.4.1.1.77.1.5.1", "Ophthalmic Photography 8 Bit Image Storage", SOPClass)
  const OphthalmicPhotography16BitImageStorage := DcmUID("1.2.840.10008.5.1.4.1.1.77.1.5.2", "Ophthalmic Photography 16 Bit Image Storage", SOPClass)
  const StereometricRelationshipStorage := DcmUID("1.2.840.10008.5.1.4.1.1.77.1.5.3", "Stereometric Relationship Storage", SOPClass)
  const BasicTextSR := DcmUID("1.2.840.10008.5.1.4.1.1.88.11", "Basic Text SR", SOPClass)
  const EnhancedSR := DcmUID("1.2.840.10008.5.1.4.1.1.88.22", "Enhanced SR", SOPClass)
  const ComprehensiveSR := DcmUID("1.2.840.10008.5.1.4.1.1.88.33", "Comprehensive SR", SOPClass)
  const ProcedureLogStorage := DcmUID("1.2.840.10008.5.1.4.1.1.88.40", "Procedure Log Storage", SOPClass)
  const MammographyCADSR := DcmUID("1.2.840.10008.5.1.4.1.1.88.50", "Mammography CAD SR", SOPClass)
  const KeyObjectSelectionDocument := DcmUID("1.2.840.10008.5.1.4.1.1.88.59", "Key Object Selection Document", SOPClass)
  const ChestCADSR := DcmUID("1.2.840.10008.5.1.4.1.1.88.65", "Chest CAD SR", SOPClass)
  const XRayRadiationDoseSR := DcmUID("1.2.840.10008.5.1.4.1.1.88.67", "X-Ray Radiation Dose SR", SOPClass)
  const EncapsulatedPDFStorage := DcmUID("1.2.840.10008.5.1.4.1.1.104.1", "Encapsulated PDF Storage", SOPClass)
  const PositronEmissionTomographyImageStorage := DcmUID("1.2.840.10008.5.1.4.1.1.128", "Positron Emission Tomography Image Storage", SOPClass)
  const StandalonePETCurveStorage := DcmUID("1.2.840.10008.5.1.4.1.1.129", "Standalone PET Curve Storage", SOPClass)
  const RTImageStorage := DcmUID("1.2.840.10008.5.1.4.1.1.481.1", "RT Image Storage", SOPClass)
  const RTDoseStorage := DcmUID("1.2.840.10008.5.1.4.1.1.481.2", "RT Dose Storage", SOPClass)
  const RTStructureSetStorage := DcmUID("1.2.840.10008.5.1.4.1.1.481.3", "RT Structure Set Storage", SOPClass)
  const RTBeamsTreatmentRecordStorage := DcmUID("1.2.840.10008.5.1.4.1.1.481.4", "RT Beams Treatment Record Storage", SOPClass)
  const RTPlanStorage := DcmUID("1.2.840.10008.5.1.4.1.1.481.5", "RT Plan Storage", SOPClass)
  const RTBrachyTreatmentRecordStorage := DcmUID("1.2.840.10008.5.1.4.1.1.481.6", "RT Brachy Treatment Record Storage", SOPClass)
  const RTTreatmentSummaryRecordStorage := DcmUID("1.2.840.10008.5.1.4.1.1.481.7", "RT Treatment Summary Record Storage", SOPClass)
  const RTIonPlanStorage := DcmUID("1.2.840.10008.5.1.4.1.1.481.8", "RT Ion Plan Storage", SOPClass)
  const RTIonBeamsTreatmentRecordStorage := DcmUID("1.2.840.10008.5.1.4.1.1.481.9", "RT Ion Beams Treatment Record Storage", SOPClass)
  const PatientRootQueryRetrieveInformationModelFIND := DcmUID("1.2.840.10008.5.1.4.1.2.1.1", "Patient Root Query/Retrieve Information Model - FIND", SOPClass)
  const PatientRootQueryRetrieveInformationModelMOVE := DcmUID("1.2.840.10008.5.1.4.1.2.1.2", "Patient Root Query/Retrieve Information Model - MOVE", SOPClass)
  const PatientRootQueryRetrieveInformationModelGET := DcmUID("1.2.840.10008.5.1.4.1.2.1.3", "Patient Root Query/Retrieve Information Model - GET", SOPClass)
  const StudyRootQueryRetrieveInformationModelFIND := DcmUID("1.2.840.10008.5.1.4.1.2.2.1", "Study Root Query/Retrieve Information Model - FIND", SOPClass)
  const StudyRootQueryRetrieveInformationModelMOVE := DcmUID("1.2.840.10008.5.1.4.1.2.2.2", "Study Root Query/Retrieve Information Model - MOVE", SOPClass)
  const StudyRootQueryRetrieveInformationModelGET := DcmUID("1.2.840.10008.5.1.4.1.2.2.3", "Study Root Query/Retrieve Information Model - GET", SOPClass)
  const PatientStudyOnlyQueryRetrieveInformationModelFIND := DcmUID("1.2.840.10008.5.1.4.1.2.3.1", "Patient/Study Only Query/Retrieve Information Model - FIND", SOPClass)
  const PatientStudyOnlyQueryRetrieveInformationModelMOVE := DcmUID("1.2.840.10008.5.1.4.1.2.3.2", "Patient/Study Only Query/Retrieve Information Model - MOVE", SOPClass)
  const PatientStudyOnlyQueryRetrieveInformationModelGET := DcmUID("1.2.840.10008.5.1.4.1.2.3.3", "Patient/Study Only Query/Retrieve Information Model - GET", SOPClass)
  const ModalityWorklistInformationModelFIND := DcmUID("1.2.840.10008.5.1.4.31", "Modality Worklist Information Model - FIND", SOPClass)
  const GeneralPurposeWorklistInformationModelFIND := DcmUID("1.2.840.10008.5.1.4.32.1", "General Purpose Worklist Information Model - FIND", SOPClass)
  const GeneralPurposeScheduledProcedureStepSOPClass := DcmUID("1.2.840.10008.5.1.4.32.2", "General Purpose Scheduled Procedure Step SOP Class", SOPClass)
  const GeneralPurposePerformedProcedureStepSOPClass := DcmUID("1.2.840.10008.5.1.4.32.3", "General Purpose Performed Procedure Step SOP Class", SOPClass)
  const InstanceAvailabilityNotificationSOPClass := DcmUID("1.2.840.10008.5.1.4.33", "Instance Availability Notification SOP Class", SOPClass)
  const PatientInformationQuery := DcmUID("1.2.840.10008.5.1.4.37.1", "General Relevant Patient Information Query General Relevant", SOPClass)
  const BreastImagingRelevantPatientInformationQuery := DcmUID("1.2.840.10008.5.1.4.37.2", "Breast Imaging Relevant Patient Information Query", SOPClass)
  const CardiacRelevantPatientInformationQuery := DcmUID("1.2.840.10008.5.1.4.37.3", "Cardiac Relevant Patient Information Query", SOPClass)
  const HangingProtocolStorage := DcmUID("1.2.840.10008.5.1.4.38.1", "Hanging Protocol Storage", SOPClass)
  const HangingProtocolInformationModelFIND := DcmUID("1.2.840.10008.5.1.4.38.2", "Hanging Protocol Information Model - FIND", SOPClass)
  const HangingProtocolInformationModelMOVE := DcmUID("1.2.840.10008.5.1.4.38.3", "Hanging Protocol Information Model - MOVE", SOPClass)
  const DetachedPatientManagementMetaSOPClass := DcmUID("1.2.840.10008.3.1.2.1.4", "Detached Patient Management Meta SOP Class", MetaSOPClass)
  const DetachedResultsManagementMetaSOPClass := DcmUID("1.2.840.10008.3.1.2.5.4", "Detached Results Management Meta SOP Class", MetaSOPClass)
  const DetachedStudyManagementMetaSOPClass := DcmUID("1.2.840.10008.3.1.2.5.5", "Detached Study Management Meta SOP Class", MetaSOPClass)
  const BasicGrayscalePrintManagement := DcmUID("1.2.840.10008.5.1.1.9", "Basic Grayscale Print Management Meta SOP Class", MetaSOPClass)
  const ReferencedGrayscalePrintManagementRetired := DcmUID("1.2.840.10008.5.1.1.9.1", "Referenced Grayscale Print Management Meta SOP Class (Retired)", MetaSOPClass)
  const BasicColorPrintManagement := DcmUID("1.2.840.10008.5.1.1.18", "Basic Color Print Management Meta SOP Class", MetaSOPClass)
  const ReferencedColorPrintManagementRetired := DcmUID("1.2.840.10008.5.1.1.18.1", "Referenced Color Print Management Meta SOP Class (Retired)", MetaSOPClass)
  const PullStoredPrintManagement := DcmUID("1.2.840.10008.5.1.1.32", "Pull Stored Print Management Meta SOP Class", MetaSOPClass)
  const GeneralPurposeWorklistManagementMetaSOPClass := DcmUID("1.2.840.10008.5.1.4.32", "General Purpose Worklist Management Meta SOP Class", MetaSOPClass)
  const StorageCommitmentPushModelSOPInstance := DcmUID("1.2.840.10008.1.20.1.1", "Storage Commitment Push Model SOP Instance", SOPInstance)
  const StorageCommitmentPullModelSOPInstance := DcmUID("1.2.840.10008.1.20.2.1", "Storage Commitment Pull Model SOP Instance", SOPInstance)
  const ProceduralEventLoggingSOPInstance := DcmUID("1.2.840.10008.1.40.1", "Procedural Event Logging SOP Instance", SOPInstance)
  const TalairachBrainAtlasFrameOfReference := DcmUID("1.2.840.10008.1.4.1.1", "Talairach Brain Atlas Frame of Reference", SOPInstance)
  const SPM2T1FrameOfReference := DcmUID("1.2.840.10008.1.4.1.2", "SPM2 T1 Frame of Reference", SOPInstance)
  const SPM2T2FrameOfReference := DcmUID("1.2.840.10008.1.4.1.3", "SPM2 T2 Frame of Reference", SOPInstance)
  const SPM2PDFrameOfReference := DcmUID("1.2.840.10008.1.4.1.4", "SPM2 PD Frame of Reference", SOPInstance)
  const SPM2EPIFrameOfReference := DcmUID("1.2.840.10008.1.4.1.5", "SPM2 EPI Frame of Reference", SOPInstance)
  const SPM2FILT1FrameOfReference := DcmUID("1.2.840.10008.1.4.1.6", "SPM2 FIL T1 Frame of Reference", SOPInstance)
  const SPM2PETFrameOfReference := DcmUID("1.2.840.10008.1.4.1.7", "SPM2 PET Frame of Reference", SOPInstance)
  const SPM2TRANSMFrameOfReference := DcmUID("1.2.840.10008.1.4.1.8", "SPM2 TRANSM Frame of Reference", SOPInstance)
  const SPM2SPECTFrameOfReference := DcmUID("1.2.840.10008.1.4.1.9", "SPM2 SPECT Frame of Reference", SOPInstance)
  const SPM2GRAYFrameOfReference := DcmUID("1.2.840.10008.1.4.1.10", "SPM2 GRAY Frame of Reference", SOPInstance)
  const SPM2WHITEFrameOfReference := DcmUID("1.2.840.10008.1.4.1.11", "SPM2 WHITE Frame of Reference", SOPInstance)
  const SPM2CSFFrameOfReference := DcmUID("1.2.840.10008.1.4.1.12", "SPM2 CSF Frame of Reference", SOPInstance)
  const SPM2BRAINMASKFrameOfReference := DcmUID("1.2.840.10008.1.4.1.13", "SPM2 BRAINMASK Frame of Reference", SOPInstance)
  const SPM2AVG305T1FrameOfReference := DcmUID("1.2.840.10008.1.4.1.14", "SPM2 AVG305T1 Frame of Reference", SOPInstance)
  const SPM2AVG152T1FrameOfReference := DcmUID("1.2.840.10008.1.4.1.15", "SPM2 AVG152T1 Frame of Reference", SOPInstance)
  const SPM2AVG152T2FrameOfReference := DcmUID("1.2.840.10008.1.4.1.16", "SPM2 AVG152T2 Frame of Reference", SOPInstance)
  const SPM2AVG152PDFrameOfReference := DcmUID("1.2.840.10008.1.4.1.17", "SPM2 AVG152PD Frame of Reference", SOPInstance)
  const SPM2SINGLESUBJT1FrameOfReference := DcmUID("1.2.840.10008.1.4.1.18", "SPM2 SINGLESUBJT1 Frame of Reference", SOPInstance)
  const ICBM452T1FrameOfReference := DcmUID("1.2.840.10008.1.4.2.1", "ICBM 452 T1 Frame of Reference", SOPInstance)
  const ICBMSingleSubjectMRIFrameOfReference := DcmUID("1.2.840.10008.1.4.2.2", "ICBM Single Subject MRI Frame of Reference", SOPInstance)
  const PrinterSOPInstance := DcmUID("1.2.840.10008.5.1.1.17", "Printer SOP Instance", SOPInstance)
  const PrinterConfigurationRetrievalSOPInstance := DcmUID("1.2.840.10008.5.1.1.17.376", "Printer Configuration Retrieval SOP Instance", SOPInstance)
  const PrintQueueSOPInstance := DcmUID("1.2.840.10008.5.1.1.25", "Print Queue SOP Instance", SOPInstance)
  const DICOMApplicationContextName := DcmUID("1.2.840.10008.3.1.1.1", "DICOM Application Context Name", ApplicationContextName)
  const DICOMControlledTerminologyCodingScheme := DcmUID("1.2.840.10008.2.16.4", "DICOM Controlled Terminology Coding Scheme", CodingScheme)
  const UniversalCoordinatedTime := DcmUID("1.2.840.10008.15.1.1", "Universal Coordinated Time", SynchronizationFrameOfReference)

  /** The registrations of the static constructor, in order. JPEGXRPrivate and
      PNGPrivate are registered first in the source; their UID text is not part
      of this model. */
  const Registered: seq<DcmUID> := [
    ImplicitVRLittleEndian, ExplicitVRLittleEndian, DeflatedExplicitVRLittleEndian, ExplicitVRBigEndian,
    JPEGProcess1, JPEGProcess2_4, JPEGProcess3_5Retired, JPEGProcess6_8Retired, JPEGProcess7_9Retired,
    JPEGProcess10_12Retired, JPEGProcess11_13Retired, JPEGProcess14, JPEGProcess15Retired,
    JPEGProcess16_18Retired, JPEGProcess17_19Retired, JPEGProcess20_22Retired, JPEGProcess21_23Retired,
    JPEGProcess24_26Retired, JPEGProcess25_27Retired, JPEGProcess28Retired, JPEGProcess29Retired,
    JPEGProcess14SV1, JPEGLSLossless, JPEGLSNearLossless, JPEG2000Lossless, JPEG2000Lossy, MPEG2,
    RLELossless, Verification, MediaStorageDirectoryStorage, BasicStudyContentNotification,
    StorageCommitmentPushModel, StorageCommitmentPullModel, ProceduralEventLoggingSOPClass,
    DetachedPatientManagement, DetachedVisitManagement, DetachedStudyManagement, StudyComponentManagement,
    ModalityPerformedProcedureStep, ModalityPerformedProcedureStepRetrieve,
    ModalityPerformedProcedureStepNotification, DetachedResultsManagement, DetachedInterpretationManagement,
    StorageServiceClass, BasicFilmSession, BasicFilmBoxSOP, BasicGrayscaleImageBox, BasicColorImageBox,
    ReferencedImageBoxRetired, PrintJob, BasicAnnotationBox, Printer, PrinterConfigurationRetrieval,
    VOILUTBox, PresentationLUT, ImageOverlayBox, BasicPrintImageOverlayBox, PrintQueueManagement,
    StoredPrintStorage, HardcopyGrayscaleImageStorage, HardcopyColorImageStorage, PullPrintRequest,
    MediaCreationManagementSOPClass, ComputedRadiographyImageStorage, DigitalXRayImageStorageForPresentation,
    DigitalXRayImageStorageForProcessing, DigitalMammographyXRayImageStorageForPresentation,
    DigitalMammographyXRayImageStorageForProcessing, DigitalIntraoralXRayImageStorageForPresentation,
    DigitalIntraoralXRayImageStorageForProcessing, CTImageStorage, EnhancedCTImageStorage,
    UltrasoundMultiframeImageStorageRetired, UltrasoundMultiframeImageStorage, MRImageStorage,
    EnhancedMRImageStorage, MRSpectroscopyStorage, NuclearMedicineImageStorageRetired,
    UltrasoundImageStorageRetired, UltrasoundImageStorage, SecondaryCaptureImageStorage,
    MultiframeSingleBitSecondaryCaptureImageStorage, MultiframeGrayscaleByteSecondaryCaptureImageStorage,
    MultiframeGrayscaleWordSecondaryCaptureImageStorage, MultiframeTrueColorSecondaryCaptureImageStorage,
    StandaloneOverlayStorage, StandaloneCurveStorage, TwelveLeadECGWaveformStorage,
    GeneralECGWaveformStorage, AmbulatoryECGWaveformStorage, HemodynamicWaveformStorage,
    CardiacElectrophysiologyWaveformStorage, BasicVoiceAudioWaveformStorage, StandaloneModalityLUTStorage,
    StandaloneVOILUTStorage, GrayscaleSoftcopyPresentationStateStorage,
    ColorSoftcopyPresentationStateStorage, PseudoColorSoftcopyPresentationStateStorage,
    BlendingSoftcopyPresentationStateStorage, XRayAngiographicImageStorage,
    EnhancedXRayAngiographicImageStorage, XRayRadiofluoroscopicImageStorage,
    EnhancedXRayRadiofluoroscopicImageStorage, XRayAngiographicBiPlaneImageStorageRetired,
    NuclearMedicineImageStorage, RawDataStorage, SpatialRegistrationStorage, SpatialFiducialsStorage,
    RealWorldValueMappingStorage, VLImageStorageRetired, VLMultiframeImageStorageRetired,
    VLEndoscopicImageStorage, VLMicroscopicImageStorage, VLSlideCoordinatesMicroscopicImageStorage,
    VLPhotographicImageStorage, VideoEndoscopicImageStorage, VideoMicroscopicImageStorage,
    VideoPhotographicImageStorage, OphthalmicPhotography8BitImageStorage,
    OphthalmicPhotography16BitImageStorage, StereometricRelationshipStorage, BasicTextSR, EnhancedSR,
    ComprehensiveSR, ProcedureLogStorage, MammographyCADSR, KeyObjectSelectionDocument, ChestCADSR,
    XRayRadiationDoseSR, EncapsulatedPDFStorage, PositronEmissionTomographyImageStorage,
    StandalonePETCurveStorage, RTImageStorage, RTDoseStorage, RTStructureSetStorage,
    RTBeamsTreatmentRecordStorage, RTPlanStorage, RTBrachyTreatmentRecordStorage,
    RTTreatmentSummaryRecordStorage, RTIonPlanStorage, RTIonBeamsTreatmentRecordStorage,
    PatientRootQueryRetrieveInformationModelFIND, PatientRootQueryRetrieveInformationModelMOVE,
    PatientRootQueryRetrieveInformationModelGET, StudyRootQueryRetrieveInformationModelFIND,
    StudyRootQueryRetrieveInformationModelMOVE, StudyRootQueryRetrieveInformationModelGET,
    PatientStudyOnlyQueryRetrieveInformationModelFIND, PatientStudyOnlyQueryRetrieveInformationModelMOVE,
    PatientStudyOnlyQueryRetrieveInformationModelGET, ModalityWorklistInformationModelFIND,
    GeneralPurposeWorklistInformationModelFIND, GeneralPurposeScheduledProcedureStepSOPClass,
    GeneralPurposePerformedProcedureStepSOPClass, InstanceAvailabilityNotificationSOPClass,
    PatientInformationQuery, BreastImagingRelevantPatientInformationQuery,
    CardiacRelevantPatientInformationQuery, HangingProtocolStorage, HangingProtocolInformationModelFIND,
    HangingProtocolInformationModelMOVE, DetachedPatientManagementMetaSOPClass,
    DetachedResultsManagementMetaSOPClass, DetachedStudyManagementMetaSOPClass,
    BasicGrayscalePrintManagement, ReferencedGrayscalePrintManagementRetired, BasicColorPrintManagement,
    ReferencedColorPrintManagementRetired, PullStoredPrintManagement,
    GeneralPurposeWorklistManagementMetaSOPClass, StorageCommitmentPushModelSOPInstance,
    StorageCommitmentPullModelSOPInstance, ProceduralEventLoggingSOPInstance,
    TalairachBrainAtlasFrameOfReference, SPM2T1FrameOfReference, SPM2T2FrameOfReference,
    SPM2PDFrameOfReference, SPM2EPIFrameOfReference, SPM2FILT1FrameOfReference, SPM2PETFrameOfReference,
    SPM2TRANSMFrameOfReference, SPM2SPECTFrameOfReference, SPM2GRAYFrameOfReference,
    SPM2WHITEFrameOfReference, SPM2CSFFrameOfReference, SPM2BRAINMASKFrameOfReference,
    SPM2AVG305T1FrameOfReference, SPM2AVG152T1FrameOfReference, SPM2AVG152T2FrameOfReference,
    SPM2AVG152PDFrameOfReference, SPM2SINGLESUBJT1FrameOfReference, ICBM452T1FrameOfReference,
    ICBMSingleSubjectMRIFrameOfReference, PrinterSOPInstance, PrinterConfigurationRetrievalSOPInstance,
    PrintQueueSOPInstance, DICOMApplicationContextName, DICOMControlledTerminologyCodingScheme,
    UniversalCoordinatedTime
  ]

  const Registry: map<string, DcmUID> := BuildRegistry(Registered)
}
