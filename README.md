# mDCM core, modelled in Dafny

This project models the core of mDCM, a C# library for DICOM (the medical
imaging standard). It covers the data model, the codecs and the parts of the
network and print services that work on it:

- **Byte order and buffers** (`endian.dfy`, `bytebuffer.dfy`, `ints.dfy`):
  - the value swaps and the in-place group swaps of `Endian`;
  - the reader and writer that swap only when the requested byte order
    differs from the host's;
  - the three-place value buffer of `ByteBuffer` (memory stream, array,
    file segment);
  - the .NET fixed-width integers and their unchecked conversions.
- **Registries** (`vr.dfy`, `ts.dfy`, `uid_old.dfy`, `uid_trunk.dfy`):
  - value representations and their lookup by code or by 16-bit word;
  - transfer syntaxes with their encoding flags and the fallback for unknown
    UIDs;
  - the UID registry in both source trees.
- **Datasets** (`dataset.dfy`, `command.dfy`, `overlay.dfy`, `text.dfy`):
  - `DcmDataset` as a sorted tag table, with replace-on-add, removal, merge,
    typed accessors and write lengths;
  - the DIMSE command set `DcmCommand`;
  - overlay planes and the unpacking of their bits;
  - the .NET number formatting, parsing and split/join these rely on.
- **Rule engines** (`match.dfy`, `modify_trunk.dfy`, `modify_old.dfy`):
  - `DcmMatch`;
  - both versions of `DcmModify`.
- **Pixel data and codecs** (`pixel_frames.dfy`, `pixeldata.dfy`, `rle.dfy`,
  `rle_frame.dfy`, `jpeg.dfy`):
  - frame sizes and sample ranges;
  - recovering a frame's fragments from encapsulated data;
  - sample decoding and `DcmPixelData`'s state;
  - the RLE Lossless codec (PackBits segments and the 64-byte header), with
    its round trip;
  - the JPEG codec wrapper's parameter handling and frame loop.
- **Stream parsing** (`streamreader.dfy`): `DicomStreamReader`, the
  resumable element parser that asks for more data when its input runs
  short.
- **Network and print services** (`associate.dfy`, `profile.dfy`,
  `echo.dfy`, `print.dfy`):
  - presentation-context negotiation through `DcmAssociateProfile`;
  - the C-ECHO service;
  - the print SCP's film session, film boxes and image-box layout.
- **Utilities** (`cache.dfy`, `shuffle.dfy`, `colortable.dfy`,
  `syslog.dfy`):
  - the least-recently-used cache;
  - the Fisher–Yates shuffle in place;
  - grayscale lookup tables and the 768-byte LUT file;
  - the syslog datagram and its priority.

Pure computations are functions with lemmas. Objects the source updates in
place (`DcmDataset`, `DcmPixelData`, `ByteBuffer`, `DicomStreamReader`,
`LeastRecentUsedCache`, the film session, the JPEG target) are classes, and
their methods state the new state.

Several things the library does not compute itself become parameters:

- the clock, `Random` and DNS resolution;
- `Wildcard.Match`, `Regex` and `String.Format`;
- which user callbacks are registered (what a callback does to the dataset is not modelled);
- the JPEG codecs.

Some behaviour is modelled as written even though it looks odd:

- `SetDefaultStorage` appends to the shared list of storage SOP classes
  (abstract syntaxes) each time it runs, and leaves the abstract syntaxes empty.
- `GetFrameFragments` has a case with no usable offset table where all
  fragments have the same length and their count is a multiple of the frame
  count (but not equal to it). In that case every frame gets all of the
  fragments.
- `DicomStreamReader`, in explicit VR, leaves the two VR characters consumed
  when a short look-ahead for UN fails.
- `DcmMatch` never matches an `Exists` or `NotExists` rule: `NotExists` is
  refused before the comparison, and `Exists` falls through it.

Where the old tree (`Dicom/...`) and the trunk tree (`trunk/Dicom/...`)
differ, the model follows the file it cites.

Where "## Findings" records a defect of the source, the model keeps both
halves: a member that computes the code as written, and the corrected
definition. The members that run a whole operation (the dataset walk of
`DcmModify`, the frame getters of `DcmPixelData`, the stream reader's
`Read`, the film session, the RLE encoder's frame loop) use the corrected
half. "## Left out" names each
of them, with the input where it parts from the source.

## Model

| member | source | states |
|---|---|---|
| EndianIO.Swap16 | Dicom/IO/Endian.cs:102-104 | the low byte of the result is the value's high byte and vice versa |
| EndianIO.Swap32 | Dicom/IO/Endian.cs:109-115 | byte i of the result is byte 3 - i of the value |
| EndianIO.Swap64 | Dicom/IO/Endian.cs:120-130 | byte i of the result is byte 7 - i of the value |
| EndianIO.SwapsReverseLayout | Dicom/IO/Endian.cs:102-115 | the 16- and 32-bit swaps lay the value out in memory in reverse byte order |
| EndianIO.Swap64ReversesLayout | Dicom/IO/Endian.cs:120-130 | the 64-bit swap lays the value out in memory in reverse byte order |
| EndianIO.SwapInvolutions | Dicom/IO/Endian.cs:102-130 | swapping a ushort, uint or ulong twice gives the value back |
| EndianIO.SwapInt16 | Dicom/IO/Endian.cs:99-101 | the bits of the swapped short are the ushort swap of the value's two's complement bits |
| EndianIO.SwapInt32 | Dicom/IO/Endian.cs:106-108 | the bits of the swapped int are the uint swap of the value's two's complement bits |
| EndianIO.SwapInt64 | Dicom/IO/Endian.cs:117-119 | the bits of the swapped long are the ulong swap of the value's two's complement bits |
| EndianIO.SwapBytes2 | Dicom/IO/Endian.cs:74-82 | each adjacent pair of the array is exchanged in place and a trailing odd byte stays |
| EndianIO.SwapBytes4 | Dicom/IO/Endian.cs:83-94 | each complete group of four is reversed in place and the trailing Length % 4 bytes stay |
| EndianIO.ReverseRange | Dicom/IO/Endian.cs:71 | Array.Reverse of n elements from lo reverses exactly that range and keeps the rest |
| EndianIO.SwapBytes | Dicom/IO/Endian.cs:63-73 | width 1 leaves the array unchanged; every width reverses each complete group and keeps the remainder |
| EndianIO.ReverseGroups | Dicom/IO/Endian.cs:69-72 | the general loop reverses each complete group of n bytes and keeps the trailing bytes |
| EndianIO.GroupsReversedTwice | Dicom/IO/Endian.cs:63-94 | reversing the groups twice restores the original bytes, so every group swap is an involution |
| EndianIO.GroupsOfOne | Dicom/IO/Endian.cs:64-65 | group reversal with width one is the identity |
| EndianIO.NeedsSwap | Dicom/IO/Endian.cs:165-179 | reader and writer swap exactly when the requested byte order differs from the host's |
| EndianIO.ReportedEndian | Dicom/IO/Endian.cs:183-197 | the Endian getter reports the order that the setter would turn into the same swap decision |
| EndianIO.WriteReadRoundTrip | Dicom/IO/Endian.cs:268-287 | a ushort, uint or ulong written and then read with the same Endian comes back unchanged |
| EndianIO.BigEndianLayout | Dicom/IO/Endian.cs:401-408 | on a little-endian host a big-endian writer emits the most significant byte first |
| EndianIO.EndianBinaryWriter.Create | Dicom/IO/Endian.cs:310-326 | a writer swaps exactly when the requested order differs from the host's and has written nothing |
| EndianIO.EndianBinaryWriter.SetEndian | Dicom/IO/Endian.cs:336-342 | the setter recomputes the swap decision, the getter then reports the new order, and nothing is written |
| EndianIO.EndianBinaryWriter.WriteUInt16 | Dicom/IO/Endian.cs:419-426 | appends the two bytes of the value, reversed when swapping |
| EndianIO.EndianBinaryWriter.WriteUInt32 | Dicom/IO/Endian.cs:401-408 | appends the four bytes of the value, reversed when swapping |
| EndianIO.EndianBinaryWriter.WriteUInt64 | Dicom/IO/Endian.cs:410-417 | appends the eight bytes of the value, reversed when swapping |
| EndianIO.EndianBinaryReader.Create | Dicom/IO/Endian.cs:158-179 | a reader swaps exactly when the requested order differs from the host's and starts at position 0 |
| EndianIO.EndianBinaryReader.ReadUInt16 | Dicom/IO/Endian.cs:268-273 | reads the next two bytes, swapped when swapping, and advances by two; at the end of the data it fails and does not move |
| EndianIO.EndianBinaryReader.ReadUInt32 | Dicom/IO/Endian.cs:275-280 | reads the next four bytes, swapped when swapping, and advances by four; at the end of the data it fails and does not move |
| EndianIO.EndianBinaryReader.ReadUInt64 | Dicom/IO/Endian.cs:282-287 | reads the next eight bytes, swapped when swapping, and advances by eight; at the end of the data it fails and does not move |
| ByteBuffers.AsciiByte | trunk/Dicom/IO/ByteBuffer.cs:44 | the ASCII encoding keeps 7-bit characters and turns every other character into '?' |
| ByteBuffers.PaddedString | trunk/Dicom/IO/ByteBuffer.cs:314-322 | the stored length is the encoded length rounded up to even, the encoded bytes come first, and the pad byte is the last byte exactly when the raw length was odd |
| ByteBuffers.BigEndianWords | trunk/Dicom/IO/ByteBuffer.cs:276-281 | there are floor(len/2) words |
| ByteBuffers.BigEndianWordAt | trunk/Dicom/IO/ByteBuffer.cs:279 | word i is (b[2i] << 8) + b[2i+1]: its high byte is b[2i] and its low byte b[2i+1] |
| ByteBuffers.ToInt16 | trunk/Dicom/IO/ByteBuffer.cs:289 | the unchecked short cast gives the value in [-32768, 32767] congruent to the word modulo 2^16 |
| ByteBuffers.ByteBuffer.Length | trunk/Dicom/IO/ByteBuffer.cs:119-129 | the length is that of the bytes the buffer stands for (stream, else array, else segment), and 0 when it holds nothing |
| ByteBuffers.ByteBuffer.FromArray | trunk/Dicom/IO/ByteBuffer.cs:50-54 | a buffer over an array holds that array and no stream or segment |
| ByteBuffers.ByteBuffer.FromSegment | trunk/Dicom/IO/ByteBuffer.cs:59-63 | a buffer over a file segment holds only that segment |
| ByteBuffers.ByteBuffer.OpenStream | trunk/Dicom/IO/ByteBuffer.cs:70-84 | the Stream getter keeps an open stream; otherwise it wraps the array (and drops it) or the segment's bytes in a fixed stream, or opens an empty growable one; the contents are unchanged |
| ByteBuffers.ByteBuffer.Unload | trunk/Dicom/IO/ByteBuffer.cs:147-154 | with a segment, stream, array, reader and writer are dropped and the contents are the segment's again; without one nothing changes |
| ByteBuffers.ByteBuffer.Clear | trunk/Dicom/IO/ByteBuffer.cs:156-162 | everything is dropped and Length becomes 0 |
| ByteBuffers.ByteBuffer.Chop | trunk/Dicom/IO/ByteBuffer.cs:164-175 | as written: the segment is dropped first, so the contents become the in-memory bytes without their first count bytes, or empty when count reaches their number; a negative count fails, as the stream position set from it throws in `GetChunk`, and leaves the in-memory bytes without the segment |
| ByteBuffers.ByteBuffer.ChopLoaded | trunk/Dicom/IO/ByteBuffer.cs:164-175 | with the stream opened before the segment is dropped, the first count bytes are removed, all of them when count >= Length; a negative count fails and keeps every byte |
| ByteBuffers.ByteBuffer.Append | trunk/Dicom/IO/ByteBuffer.cs:177-183 | the bytes are added at the end, Length grows by their number, the position is kept and the segment dropped; a stream over a fixed array that would have to grow fails instead |
| ByteBuffers.ByteBuffer.ToBytes | trunk/Dicom/IO/ByteBuffer.cs:257-272 | returns the contents as an array: the array itself, else the stream's bytes moved into a new array, else the segment's bytes loaded, else a fresh empty array |
| ByteBuffers.ByteBuffer.ToUInt16s | trunk/Dicom/IO/ByteBuffer.cs:274-282 | a fresh array of the big-endian words of the contents, whatever the buffer's Endian, contents unchanged |
| ByteBuffers.ByteBuffer.ToInt16s | trunk/Dicom/IO/ByteBuffer.cs:284-292 | floor(len/2) words, each the signed reading of the big-endian word, contents unchanged |
| ByteBuffers.ByteBuffer.SetString | trunk/Dicom/IO/ByteBuffer.cs:314-326 | the buffer then holds exactly the padded encoding in a fresh array, with no stream or segment |
| ByteBuffers.ByteBuffer.Swap2 | trunk/Dicom/IO/ByteBuffer.cs:341-349 | each byte pair of the contents is exchanged, a trailing odd byte stays, and Length is unchanged |
| ByteBuffers.ByteBuffer.Swap4 | trunk/Dicom/IO/ByteBuffer.cs:350-361 | each group of four is reversed, the trailing Length % 4 bytes stay, and Length is unchanged |
| ByteBuffers.ByteBuffer.Swap | trunk/Dicom/IO/ByteBuffer.cs:328-339 | each complete group of n bytes is reversed with the same semantics as Endian.SwapBytes, and Length is unchanged |
| ByteBuffers.ChopOfUnloadedSegment | trunk/Dicom/IO/ByteBuffer.cs:164-166 | a buffer whose four bytes are only in its segment, chopped by one, is empty as written but keeps the last three when the stream is opened first |
| VRs.MakeVR | Dicom/Data/DcmVR.cs:50-63 | the constructor keeps every argument except the padding, which is always PadZero |
| VRs.PaddingAlwaysZero | Dicom/Data/DcmVR.cs:58-59 | NONE and every registered VR pad with 0, whatever padding they were declared with |
| VRs.LengthFieldWidths | Dicom/Data/DcmVR.cs:114-141 | Is16BitLengthField is false exactly for NONE, OB, OF, OW, SQ, UN and UT |
| VRs.LookupSound | Dicom/Data/DcmVR.cs:189-222 | Lookup(s) is UN or carries the code s, and is NONE or a registered VR; with the two other Lookup lemmas, this is the contract of `VRs.Lookup` |
| VRs.LookupPairSound | Dicom/Data/DcmVR.cs:192-218 | every two-letter arm of the switch returns UN or the VR with those two letters, always a registered one |
| VRs.LookupEntries | Dicom/Data/DcmVR.cs:147-222 | "NONE" looks up as NONE, and the code of every registered VR looks up as that VR; with the two other Lookup lemmas, this is the contract of `VRs.Lookup` |
| VRs.LookupUnknown | Dicom/Data/DcmVR.cs:219-220 | any code other than "NONE" and the 27 registered codes gives UN; with the two other Lookup lemmas, this is the contract of `VRs.Lookup` |
| VRs.EntryCodesAreLetters | Dicom/Data/DcmVR.cs:115-141 | every registered code is two capital letters |
| VRs.Hash | Dicom/Data/DcmVR.cs:53 | the hash holds the first character in its high byte and the second in its low byte |
| VRs.ToString | Dicom/Data/DcmVR.cs:107-109 | the text is the code, " - ", then the description |
| VRs.LookupWordAsWrittenIsUnknown | Dicom/Data/DcmVR.cs:179-183 | as written, every non-zero word looks up as UN, because the second character is the whole word; this is the contract of `VRs.LookupWordAsWritten` |
| VRs.LookupWordCounterexample | Dicom/Data/DcmVR.cs:182 | the word of AE, 0x4145, looks up as UN as written |
| VRs.LookupWordInvertsHash | Dicom/Data/DcmVR.cs:179-183 | with the low byte taken as the second character, looking up the word of any registered VR gives that VR; this is the contract of `VRs.LookupWord`, the corrected `Lookup(ushort)` |
| TransferSyntaxes.MakeTS | Dicom/Data/DcmTS.cs:38-46 | the constructor keeps the UID and flags, and the Endian is Big exactly when the big-endian flag is set |
| TransferSyntaxes.Equals | Dicom/Data/DcmTS.cs:52-60 | equal exactly to a transfer syntax, a UID or a string with the same UID text; false for any other object |
| TransferSyntaxes.FindFrom | Dicom/Data/DcmTS.cs:200-203 | the search returns the first entry from the start position whose UID text matches, or -1 when none does |
| TransferSyntaxes.Lookup | Dicom/Data/DcmTS.cs:199-205 | the result has the looked-up UID; a registered UID gives its first registered entry; an unknown one gives a new little-endian, explicit-VR, encapsulated, lossless, non-deflate syntax |
| TransferSyntaxes.LookupString | Dicom/Data/DcmTS.cs:195-197 | looking up a string gives a syntax equal to that string |
| TransferSyntaxes.ToStringOfLookup | Dicom/Data/DcmTS.cs:48-50 | this is the contract of `TransferSyntaxes.ToString`: a syntax looked up by a text that no registered syntax has prints as the description the UID registry gives that text |
| TransferSyntaxes.OnlyExplicitVRBigEndianIsBig | Dicom/Data/DcmTS.cs:45-78 | ExplicitVRBigEndian is the only big-endian entry, and every entry's Endian is Big exactly when it is big-endian |
| TransferSyntaxes.ImplicitAndDeflateAreUnique | Dicom/Data/DcmTS.cs:72-81 | ImplicitVRLittleEndian is the only implicit-VR entry and the deflated syntax the only deflating one |
| TransferSyntaxes.EncapsulatedExactlyFromIndexFour | Dicom/Data/DcmTS.cs:72-153 | the four native syntaxes are not encapsulated and every other entry is |
| TransferSyntaxes.LossyFlags | Dicom/Data/DcmTS.cs:72-153 | Process 14, 14 SV1 and RLE are lossless, Process 1 and 2&4 are lossy, and every lossy entry is encapsulated |
| UidOld.ToString | Dicom/Data/DcmUID.cs:52-56 | an Unknown UID prints as its text; any other prints as "==" followed by its description |
| UidOld.Equals | Dicom/Data/DcmUID.cs:58-64 | true exactly for a UID or a string with the same UID text; description and type never count |
| UidOld.EqualsSymmetric | Dicom/Data/DcmUID.cs:58-64 | UID equality is symmetric and every UID equals its own text |
| UidOld.Generate | Dicom/Data/DcmUID.cs:74-78 | the UID is the base text, a dot, then the sequence number in decimal; its type is SOPInstance and its description "SOP Instance UID" |
| UidOld.GenerateInjective | Dicom/Data/DcmUID.cs:74-78 | two sequence numbers under one base give the same UID only when they are equal |
| UidOld.GenerateNow | Dicom/Data/DcmUID.cs:70-72 | the UID is the implementation class UID, a dot, then the clock ticks in decimal; its type is SOPInstance and its description "SOP Instance UID" |
| UidOld.BuildRegistry | Dicom/Data/DcmUID.cs:84-354 | the registry built by the static constructor is keyed by each entry's own UID text, holds every registered UID, and holds nothing else |
| UidOld.BuildRegistryFinds | Dicom/Data/DcmUID.cs:84-354 | a UID registered once is found under its text as itself |
| UidOld.Lookup | Dicom/Data/DcmUID.cs:357-364 | the result always has the looked-up text; a registered text gives its entry, any other a new Unknown UID described "Unknown UID" |
| UidOld.LookupEqualsItsText | Dicom/Data/DcmUID.cs:357-364 | a looked-up UID equals the string it was looked up by |
| UidOld.LookupRegistered | Dicom/Data/DcmUID.cs:82-364 | looking up the text of any registered UID that is not registered again later gives that UID |
| UidTrunk.ToString | trunk/Dicom/Data/DcmUID.cs:51-55 | an Unknown UID prints as its text; any other prints as "==" followed by its description |
| UidTrunk.Equals | trunk/Dicom/Data/DcmUID.cs:57-63 | true exactly for a UID or a string with the same UID text |
| UidTrunk.EqualsSymmetric | trunk/Dicom/Data/DcmUID.cs:57-63 | UID equality is symmetric and every UID equals its own text |
| UidTrunk.BuildRegistry | trunk/Dicom/Data/DcmUID.cs:73-277 | the registry is keyed by each entry's own UID text, holds every registered UID, and holds nothing else |
| UidTrunk.BuildRegistryFinds | trunk/Dicom/Data/DcmUID.cs:73-277 | a UID registered once is found under its text as itself |
| UidTrunk.Lookup | trunk/Dicom/Data/DcmUID.cs:280-287 | the result always has the looked-up text; an unregistered text gives Type Unknown and description "Unknown UID" |
| UidTrunk.LookupEqualsItsText | trunk/Dicom/Data/DcmUID.cs:280-287 | a looked-up UID equals the string it was looked up by |
| UidTrunk.LookupRegistered | trunk/Dicom/Data/DcmUID.cs:71-287 | looking up the text of any registered UID that is not registered again later gives that UID |
| Command.Priority.Code | Dicom/Network/DcmCommand.cs:27-31 | every priority code is at most 2 |
| Command.PriorityOf | Dicom/Network/DcmCommand.cs:120-127 | a code names a priority exactly when it is at most 2, and then the priority with that code |
| Command.PriorityCodes | Dicom/Network/DcmCommand.cs:27-31 | each priority is read back from its own code, and no two priorities share a code |
| Command.ResponseTo | Dicom/Network/DcmCommand.cs:33-57 | a request has a response and a response is a response; only responses and C-CANCEL have none |
| Command.ResponseCodes | Dicom/Network/DcmCommand.cs:33-57 | a response's code is its request's code plus 0x8000, and bit 15 is set exactly on responses |
| Command.CommandFieldOf | Dicom/Network/DcmCommand.cs:84-91 | the command field a code names carries that code |
| Command.CommandFieldCodes | Dicom/Network/DcmCommand.cs:33-57 | each command field is read back from its own code, and the codes are distinct |
| Command.UShortTagsDistinct | Dicom/Network/DcmCommand.cs:84-154 | different ushort properties are stored under different tags |
| Command.TextField.VR | Dicom/Network/DcmCommand.cs:66-118 | the UID and AE properties are stored with a string VR |
| Command.DcmCommand.constructor | Dicom/Network/DcmCommand.cs:61-62 | a new command is empty and Implicit VR Little Endian; every ushort getter gives its default, there is no dataset, and every string getter gives null |
| Command.DcmCommand.GetUShort | Dicom/Network/DcmCommand.cs:93-109 | an absent element reads as the property's default |
| Command.DcmCommand.SetUShort | Dicom/Network/DcmCommand.cs:93-109 | the new value is stored as US, reads back, and no other element changes |
| Command.DcmCommand.HasDataset | Dicom/Network/DcmCommand.cs:129-136 | HasDataset is true exactly when DataSetType is not 0x0101 |
| Command.DcmCommand.SetHasDataset | Dicom/Network/DcmCommand.cs:129-145 | setting it stores 0x0202 or 0x0101, reads back as the value set, and changes nothing else |
| Command.DcmCommand.GetCommandField | Dicom/Network/DcmCommand.cs:84-91 | the command field read carries the stored code |
| Command.DcmCommand.SetCommandField | Dicom/Network/DcmCommand.cs:84-91 | the command field set reads back and no other element changes |
| Command.DcmCommand.GetText | Dicom/Network/DcmCommand.cs:66-73 | the getter gives null exactly when the element is absent |
| Command.DcmCommand.SetText | Dicom/Network/DcmCommand.cs:111-118 | a non-empty single value reads back; an empty string leaves an element whose value 0 is out of range |
| Dataset.Card | trunk/Dicom/Data/DcmDataset.cs:314-317 | the key of the item table holds the group in its high 16 bits and the element in its low 16 bits |
| Dataset.CardOrder | trunk/Dicom/Data/DcmDataset.cs:33 | ordering by key is ordering by group then element, and two tags share a key only when they are equal |
| Dataset.WithEndian | trunk/Dicom/Data/DcmDataset.cs:131-135 | setting an item's byte order keeps its tag |
| Dataset.NewElement | trunk/Dicom/Data/DcmDataset.cs:197-201 | a created element has the requested tag and VR |
| Dataset.ValuesRoundTrip | trunk/Dicom/Data/DcmDataset.cs:636-656 | values without a backslash, joined and split again, come back unchanged (except one empty value) |
| Dataset.JoinValuesOf | trunk/Dicom/Data/DcmDataset.cs:636-656 | a value string split into values and joined again is unchanged |
| Dataset.ParseAllNumberStrings | trunk/Dicom/Data/DcmDataset.cs:305-312 | 32-bit numbers printed as decimal parse back to themselves |
| Dataset.ValueStringRoundTrip | trunk/Dicom/Data/DcmDataset.cs:305-312 | an element's value string parses back into the same value |
| Dataset.ParseValueString | trunk/Dicom/Data/DcmDataset.cs:305-312 | setting a value string fails exactly for a binary element or a numeric element with a value that does not parse; on success the value keeps its kind, a text is stored as given, and a numeric element holds one number per value, each that value parsed |
| Dataset.ParseAllSound | trunk/Dicom/Data/DcmDataset.cs:305-312 | the numbers parsed are the values read one by one, and parsing fails only at a value that is not a 32-bit number |
| Text.ParseUnsigned | trunk/Dicom/Data/DcmModify.cs:310 | `int.Parse` of a plain digit string gives its value when that is below 2^31 and fails otherwise; with ParseNegative and ParseIntToString this is the contract of `Text.ParseInt32` |
| Text.ParseNegative | trunk/Dicom/Data/DcmModify.cs:310 | `int.Parse` of a minus sign and digits gives the negated value when that is at least -2^31 and fails otherwise |
| Text.ParseIntToString | trunk/Dicom/Data/DcmModify.cs:310 | `int.Parse` reads back every 32-bit integer printed in decimal |
| Dataset.GetItem | trunk/Dicom/Data/DcmDataset.cs:320-325 | an item found carries the tag asked for and is in the table; nothing is found exactly when the tag is absent |
| Dataset.Contains | trunk/Dicom/Data/DcmDataset.cs:327-329 | true exactly when some item has the tag |
| Dataset.GetElement | trunk/Dicom/Data/DcmDataset.cs:338-345 | an element is found under its own tag; null when the tag is absent or holds a sequence |
| Dataset.GetItemOfMember | trunk/Dicom/Data/DcmDataset.cs:320-325 | in a sorted table every item is found under its own tag |
| Dataset.Insert | trunk/Dicom/Data/DcmDataset.cs:314-318 | after adding, the item is present and nothing but it was added |
| Dataset.InsertSorted | trunk/Dicom/Data/DcmDataset.cs:314-318 | adding an item keeps the table sorted by tag |
| Dataset.GetItemInsert | trunk/Dicom/Data/DcmDataset.cs:314-318 | after adding, the item is found under its tag and every other tag finds what it found before |
| Dataset.Without | trunk/Dicom/Data/DcmDataset.cs:179-182 | removing a tag leaves only items of the table with other tags |
| Dataset.WithoutSorted | trunk/Dicom/Data/DcmDataset.cs:179-182 | removing a tag keeps the table sorted |
| Dataset.GetItemWithout | trunk/Dicom/Data/DcmDataset.cs:179-182 | removing a tag deletes that tag only, and removing an absent tag changes nothing |
| Dataset.RemoveMasked | trunk/Dicom/Data/DcmDataset.cs:184-191 | after removal by mask only unmatched items of the table remain |
| Dataset.RemoveMaskedSorted | trunk/Dicom/Data/DcmDataset.cs:184-191 | removal by mask keeps the table sorted |
| Dataset.GetItemRemoveMasked | trunk/Dicom/Data/DcmDataset.cs:184-191 | removal by mask deletes exactly the matching tags |
| Dataset.MaskedTags | trunk/Dicom/Data/DcmDataset.cs:347-351 | the tags listed are exactly the table's tags that match the mask |
| Dataset.InsertAllSorted | trunk/Dicom/Data/DcmDataset.cs:163-166 | merging keeps the table sorted |
| Dataset.GetItemInsertAll | trunk/Dicom/Data/DcmDataset.cs:163-166 | after a merge every incoming tag holds the incoming item in this dataset's byte order, and every other tag is unchanged |
| Dataset.GetValueString | trunk/Dicom/Data/DcmDataset.cs:599-604 | a value string is returned exactly when an element is present |
| Dataset.GettersDefault | trunk/Dicom/Data/DcmDataset.cs:606-748 | for an absent element every getter returns its default; for an element of a foreign VR each one fails with an incorrect-VR error |
| Dataset.GetString | trunk/Dicom/Data/DcmDataset.cs:606-619 | an absent element gives the default; a present one fails with an incorrect-VR error exactly when it is not a string element, and with an index error exactly when the index is outside a multi-valued string's values; a value read is the whole text or one of its values |
| Dataset.GetStringArray | trunk/Dicom/Data/DcmDataset.cs:636-645 | an absent element gives the default; the only error is an incorrect VR, exactly when the element is not a string element; the values read, joined with backslashes, are the element's text |
| Dataset.GetStringOfArray | trunk/Dicom/Data/DcmDataset.cs:606-645 | on a present element GetString reads value `index` of what GetStringArray gives, or the single value of a single-valued string |
| Dataset.GetInt32 | trunk/Dicom/Data/DcmDataset.cs:723-734 | an absent element gives the default; a present one fails with an incorrect-VR error exactly when it is neither an IS text nor an SL number; an IS value read is its text parsed, an SL value read is its first number |
| Dataset.GetUInt16 | trunk/Dicom/Data/DcmDataset.cs:743-748 | an absent element gives the default; a present one fails with an incorrect-VR error exactly when it is not a US number, and with an index error exactly when it has no value; a value read is its first number |
| Dataset.SetStringThenGet | trunk/Dicom/Data/DcmDataset.cs:621-645 | after SetString the value string is the text set, the values are its pieces (or the text), and no other tag changes |
| Dataset.SetStringArrayThenGet | trunk/Dicom/Data/DcmDataset.cs:636-656 | SetStringArray then GetStringArray gives the values back |
| Dataset.Int32RoundTrip | trunk/Dicom/Data/DcmDataset.cs:226-238 | storing an int as IS or SL and reading it with GetInt32 gives it back |
| Dataset.UInt16RoundTrip | trunk/Dicom/Data/DcmDataset.cs:215-224 | storing a ushort as US and reading it with GetUInt16 gives it back |
| Dataset.StringRoundTrip | trunk/Dicom/Data/DcmDataset.cs:203-213 | a stored string reads back with GetString when it is a single value |
| Dataset.InsertReplace | trunk/Dicom/Data/DcmDataset.cs:314-318 | adding under the same tag twice keeps only the second item |
| Dataset.InsertLast | trunk/Dicom/Data/DcmDataset.cs:314-318 | adding an item after every tag of the table appends it |
| Dataset.InsertAllRebuilds | trunk/Dicom/Data/DcmDataset.cs:168-176 | re-adding the items of a sorted table into an empty one rebuilds the same table |
| Dataset.ReferenceItem | trunk/Dicom/Data/DcmDataset.cs:158-160 | the appended sequence item holds the class and instance UIDs under the referenced SOP tags |
| Dataset.AddedWithValueStringGet | trunk/Dicom/Data/DcmDataset.cs:305-312 | the tag then holds an element of the tag's VR whose value string is the text, and other tags are unchanged |
| Dataset.InsertLength | trunk/Dicom/Data/DcmDataset.cs:314-318 | adding replaces an existing tag (the length stays) or grows the table by one |
| Dataset.InsertMember | trunk/Dicom/Data/DcmDataset.cs:314-318 | adding an item the table already holds changes nothing |
| Dataset.WithoutLength | trunk/Dicom/Data/DcmDataset.cs:179-182 | removal never grows the table |
| Dataset.GroupLengthSize | trunk/Dicom/Data/DcmDataset.cs:119-123 | a group-length element takes 12 bytes in explicit and in implicit VR |
| Dataset.GroupChangesAreGroups | trunk/Dicom/Data/DcmDataset.cs:111-129 | in a sorted table the group changes counted are exactly the distinct groups |
| Dataset.WriteLengthCountsGroups | trunk/Dicom/Data/DcmDataset.cs:111-129 | the write length is the sum of the item lengths plus 12 bytes per group when group lengths are written |
| Dataset.WithSyntax | trunk/Dicom/Data/DcmDataset.cs:872-891 | setting the syntax keeps the number of items and their tags |
| Dataset.ItemWithSyntax | trunk/Dicom/Data/DcmDataset.cs:874-889 | setting the syntax keeps the item's tag |
| Dataset.EntriesWithSyntax | trunk/Dicom/Data/DcmDataset.cs:884-886 | setting the syntax keeps the number of sequence items |
| Dataset.WithSyntaxReaches | trunk/Dicom/Data/DcmDataset.cs:872-891 | afterwards every item at every depth has the new byte order and every nested dataset the new syntax |
| Dataset.ItemWithSyntaxReaches | trunk/Dicom/Data/DcmDataset.cs:874-889 | the same for one item and everything nested in it |
| Dataset.EntriesWithSyntaxReach | trunk/Dicom/Data/DcmDataset.cs:884-886 | the same for the items of a sequence |
| Dataset.WithSyntaxTwice | trunk/Dicom/Data/DcmDataset.cs:872-891 | setting the syntax twice is setting the second one |
| Dataset.ItemWithSyntaxTwice | trunk/Dicom/Data/DcmDataset.cs:874-889 | the same for one item |
| Dataset.EntriesWithSyntaxTwice | trunk/Dicom/Data/DcmDataset.cs:884-886 | the same for the items of a sequence |
| Dataset.ChangePlanShapes | trunk/Dicom/Data/DcmDataset.cs:836-870 | nothing happens for the same syntax; otherwise the syntax is set last, with a decode, encode or frame copy before it as the two syntaxes' encapsulation says, going through Explicit VR Little Endian between two encapsulated syntaxes |
| Dataset.DcmDataset.constructor | trunk/Dicom/Data/DcmDataset.cs:46-48 | a new dataset is empty and has the given syntax |
| Dataset.DcmDataset.AddItem | trunk/Dicom/Data/DcmDataset.cs:314-318 | the item replaces any item with its tag, takes the dataset's byte order, and no other tag changes |
| Dataset.DcmDataset.Remove | trunk/Dicom/Data/DcmDataset.cs:179-182 | the tag is gone and no other tag changes |
| Dataset.DcmDataset.RemoveMatching | trunk/Dicom/Data/DcmDataset.cs:184-191 | exactly the matching tags are gone |
| Dataset.DcmDataset.Merge | trunk/Dicom/Data/DcmDataset.cs:163-166 | every incoming item is added in turn |
| Dataset.DcmDataset.SetString | trunk/Dicom/Data/DcmDataset.cs:621-634 | a string element takes the text; a missing element or a foreign VR is an error that changes nothing |
| Dataset.DcmDataset.SetStringArray | trunk/Dicom/Data/DcmDataset.cs:647-656 | a multi-valued string element takes the values; anything else is an error that changes nothing |
| Dataset.DcmDataset.AddElement | trunk/Dicom/Data/DcmDataset.cs:197-201 | an empty element of the VR replaces whatever the tag held, and the result is always true |
| Dataset.DcmDataset.AddElementWithString | trunk/Dicom/Data/DcmDataset.cs:203-213 | a non-string VR is an error that changes nothing; otherwise the element holds the text |
| Dataset.DcmDataset.AddElementWithUInt16 | trunk/Dicom/Data/DcmDataset.cs:215-224 | a VR other than US is an error that changes nothing; otherwise the element holds the one value |
| Dataset.DcmDataset.AddElementWithInt32 | trunk/Dicom/Data/DcmDataset.cs:226-238 | a VR other than IS and SL is an error that changes nothing; otherwise the element holds the value, as text for IS |
| Dataset.DcmDataset.AddElementWithValueString | trunk/Dicom/Data/DcmDataset.cs:305-312 | the element is added, then takes the parsed value; a parse error leaves the empty element |
| Dataset.DcmDataset.AddReferenceSequenceItem | trunk/Dicom/Data/DcmDataset.cs:149-161 | a reference item is appended to the sequence, which is created when absent; a non-sequence under the tag is an error that changes nothing |
| Dataset.DcmDataset.Clone | trunk/Dicom/Data/DcmDataset.cs:168-176 | the copy is a new dataset with the same syntax and the same items |
| Dataset.DcmDataset.ChangeTransferSyntax | trunk/Dicom/Data/DcmDataset.cs:836-870 | the steps taken are the plan for the two syntaxes; the dataset ends in the new syntax at every depth |
| Dataset.DcmDataset.CalculateWriteLength | trunk/Dicom/Data/DcmDataset.cs:111-129 | the 32-bit length is the item lengths plus one group length for each group change, modulo 2^32 |
| Dataset.DcmDataset.CalculateGroupWriteLength | trunk/Dicom/Data/DcmDataset.cs:99-109 | the 32-bit length is the sum over the group's items other than its group length, modulo 2^32 |
| Dataset.DcmDataset.SetInternalTransferSyntax | trunk/Dicom/Data/DcmDataset.cs:872-891 | the dataset takes the syntax, and every item at every depth takes its byte order |
| Dataset.ItemsOfGroup | trunk/Dicom/Data/DcmDataset.cs:99-109 | exactly the items of the group other than the group-length element |
| Dataset.GroupLengthIsGroupSum | trunk/Dicom/Data/DcmDataset.cs:99-109 | in a sorted table the early return loses nothing: the result is the sum over exactly the group's items |
| Dataset.RemoveMatchingFrom | trunk/Dicom/Data/DcmDataset.cs:184-191 | the index loop that steps back after each removal removes exactly the matching items |
| Match.Matches | Dicom/Data/DcmMatch.cs:83-126 | an absent element never matches, and Exists and NotExists never match at all |
| Match.NotEqualsNegates | Dicom/Data/DcmMatch.cs:99-102 | on a present element NotEquals is exactly the negation of Equals |
| Match.EqualsImpliesOthers | Dicom/Data/DcmMatch.cs:99-123 | a value equal to the rule's string also starts with, ends with and contains it, and is one of its own components when it has no backslash |
| Match.StartsWithImpliesContains | Dicom/Data/DcmMatch.cs:103-108 | whatever StartsWith accepts, Contains accepts |
| Match.OneOfIsMembership | Dicom/Data/DcmMatch.cs:117-123 | OneOf on a backslash-joined list of values holds exactly when the rule's string is one of the values |
| Match.MatchAll | Dicom/Data/DcmMatch.cs:167-174 | true exactly when every rule matches; true for no rules |
| ModifyTrunk.IdNumber | trunk/Dicom/Data/DcmModify.cs:329-333 | the clock text parses exactly when it is a non-negative 32-bit number, whose quotient by 100000 is the day count and remainder the second of the day |
| ModifyTrunk.NextId | trunk/Dicom/Data/DcmModify.cs:334 | the number taken is the clock's or the successor of the last one (wrapping at 2^32), and exceeds the last one unless that is 2^32-1 |
| ModifyTrunk.IdText | trunk/Dicom/Data/DcmModify.cs:336 | the identifier is at least nine decimal digits whose value is the number |
| ModifyTrunk.LeadingZeros | trunk/Dicom/Data/DcmModify.cs:336 | zeros in front do not change the value of a digit string |
| ModifyTrunk.IdTextInjective | trunk/Dicom/Data/DcmModify.cs:336 | different numbers give different identifiers |
| ModifyTrunk.IdGenerator.constructor | trunk/Dicom/Data/DcmModify.cs:326 | the counter starts at 0 |
| ModifyTrunk.IdGenerator.GenerateID | trunk/Dicom/Data/DcmModify.cs:327-338 | a parse failure changes nothing; otherwise the counter becomes the number taken, which grows unless the counter was at 2^32-1, and the identifier is its text |
| ModifyTrunk.TruncatedParts | trunk/Dicom/Data/DcmModify.cs:312-315 | each cut part is a prefix of its part, of the given length or shorter when the part was short enough |
| ModifyTrunk.TruncateParts | trunk/Dicom/Data/DcmModify.cs:312-315 | the loop over the array cuts every part to at most the length |
| ModifyTrunk.TruncatedValue | trunk/Dicom/Data/DcmModify.cs:309-317 | Truncate produces a value exactly when the input parses as a non-negative integer |
| ModifyTrunk.TruncateKeepsValues | trunk/Dicom/Data/DcmModify.cs:309-317 | truncating keeps the number of values, and each value of the result is the input's value cut to the length |
| ModifyTrunk.TruncateValue | trunk/Dicom/Data/DcmModify.cs:309-317 | the array computation gives the truncated value string |
| ModifyTrunk.EditedValue | trunk/Dicom/Data/DcmModify.cs:269-307 | Map edits exactly when the value equals the input and gives the output; Chomp edits exactly when the value starts with the output and leaves what follows it |
| ModifyTrunk.ApplyTo | trunk/Dicom/Data/DcmModify.cs:223-323 | a value edit on an absent element and a user operator change nothing |
| ModifyTrunk.ApplyToOtherTags | trunk/Dicom/Data/DcmModify.cs:223-323 | a rule applied to one tag leaves every other tag as it was |
| ModifyTrunk.ApplyToSorted | trunk/Dicom/Data/DcmModify.cs:223-323 | applying a rule keeps the table sorted |
| ModifyTrunk.ApplyToLength | trunk/Dicom/Data/DcmModify.cs:223-323 | applying a rule to a tag the table holds never grows it |
| ModifyTrunk.RemoveDeletes | trunk/Dicom/Data/DcmModify.cs:225-228 | Remove deletes the tag |
| ModifyTrunk.AddOrReplaceSets | trunk/Dicom/Data/DcmModify.cs:256-259 | AddOrReplace leaves an element of the dictionary VR, holding the output when that VR is a string VR, whether or not the tag was present |
| ModifyTrunk.EditStoresText | trunk/Dicom/Data/DcmModify.cs:266-307 | on a text element the value string afterwards is the edited string, or the old one when the rule does not edit |
| ModifyTrunk.ApplyToText | trunk/Dicom/Data/DcmModify.cs:266-307 | a value edit of a text element replaces exactly its text |
| ModifyTrunk.ChompUndoesPrefix | trunk/Dicom/Data/DcmModify.cs:288-307 | Chomp with the text a Prefix put in front restores the table |
| ModifyTrunk.PrefixStores | trunk/Dicom/Data/DcmModify.cs:288-291 | Prefix stores the input in front of the element's text |
| ModifyTrunk.ChompStores | trunk/Dicom/Data/DcmModify.cs:303-307 | Chomp of a text that starts with the output stores what follows it |
| ModifyTrunk.Apply | trunk/Dicom/Data/DcmModify.cs:223-323 | the dataset and the counter become the step's result, and a user callback is invoked exactly when the operator is a user operator whose callback is set |
| ModifyTrunk.ModifyTagsOthers | trunk/Dicom/Data/DcmModify.cs:111-112 | tags outside the list keep their items |
| ModifyTrunk.ModifyTagsRemove | trunk/Dicom/Data/DcmModify.cs:111-112 | Remove over a list of tags deletes exactly those tags |
| ModifyTrunk.ModifiedLeavesUnmatched | trunk/Dicom/Data/DcmModify.cs:107-113 | a tag the mask does not match keeps its item, whatever the rule |
| ModifyTrunk.ModifiedRemove | trunk/Dicom/Data/DcmModify.cs:107-113 | with the matching tags listed first, a Remove rule deletes every matching tag and no other |
| ModifyTrunk.Modify | trunk/Dicom/Data/DcmModify.cs:107-113 | the corrected loop over a snapshot of the matching tags ends in the state Modified describes |
| ModifyTrunk.ModifyAsWritten | trunk/Dicom/Data/DcmModify.cs:107-113 | the loop over the live table ends in the state of the lazy walk; a mask that does not parse changes nothing |
| ModifyTrunk.LazyMatchStep | trunk/Dicom/Data/DcmModify.cs:111-112 | one Remove at a matching index removes that tag and moves on to the next index |
| ModifyTrunk.LazyRemoveSkips | trunk/Dicom/Data/DcmModify.cs:111-112 | a Remove of every tag over (0010,0010) and (0010,0020) keeps the second as written, and removes both with the tags listed first |
| ModifyTrunk.LazyKeepsSecond | trunk/Dicom/Data/DcmModify.cs:111-112 | as written, removing two items in order keeps the second |
| ModifyTrunk.SnapshotRemovesBoth | trunk/Dicom/Data/DcmModify.cs:111-112 | with the tags listed first, both items are removed |
| ModifyTrunk.MatchAllTwo | trunk/Dicom/Data/DcmDataset.cs:347-351 | the mask that matches everything lists both tags in order |
| ModifyTrunk.RanAllLeavesUnmatched | trunk/Dicom/Data/DcmModify.cs:162-166 | a tag no rule's mask matches keeps its item through RunAll |
| ModifyTrunk.RunAll | trunk/Dicom/Data/DcmModify.cs:162-166 | the rules run one after another, in order |
| ModifyTrunk.CollectTagsMembers | trunk/Dicom/Data/DcmModify.cs:147-160 | the list holds each dataset tag that some rule with a parseable mask matches, exactly once |
| ModifyTrunk.GetTags | trunk/Dicom/Data/DcmModify.cs:147-160 | the list grows by each matching tag not already in it |
| ModifyOld.OpName | Dicom/Data/DcmModify.cs:31-41 | every operator's name is non-empty |
| ModifyOld.OpNameInjective | Dicom/Data/DcmModify.cs:31-41 | different operators have different names |
| ModifyOld.Describe | Dicom/Data/DcmModify.cs:139-141 | the text starts with the quoted mask, ends with the quoted output, and has exactly the length of its parts and the ten fixed characters |
| ModifyOld.DescribeShowsOp | Dicom/Data/DcmModify.cs:139-141 | two rules with the same mask, input and output are described alike only when their operators agree |
| ModifyOld.EditedValue | Dicom/Data/DcmModify.cs:187-202 | Map edits exactly when the value equals the input and gives the output; Remove, AddOrReplace and the user operators edit no value |
| ModifyOld.AsWrittenKeepsElement | Dicom/Data/DcmModify.cs:178-183 | as written, AddOrReplace on a tag that holds an element changes nothing |
| ModifyOld.AsWrittenDoesNotReplace | Dicom/Data/DcmModify.cs:178-183 | as written, AddOrReplace with output "Y" on (0010,0010) holding "X" leaves "X" |
| ModifyOld.ApplyTo | Dicom/Data/DcmModify.cs:145-208 | user operators change nothing, and Map, Split and Regex on an absent element change nothing |
| ModifyOld.ApplyAgrees | Dicom/Data/DcmModify.cs:145-208 | the corrected rule agrees with the rule as written except for AddOrReplace on an element |
| ModifyOld.AddOrReplaceSets | Dicom/Data/DcmModify.cs:178-183 | corrected AddOrReplace leaves an element of the dictionary VR holding the output when that VR is a string VR |
| ModifyOld.MapReplacesEqual | Dicom/Data/DcmModify.cs:187-191 | Map on a text element stores the output exactly when the value equals the input, and otherwise keeps the value |
| ModifyOld.ApplyToOtherTags | Dicom/Data/DcmModify.cs:145-208 | a rule applied to one tag leaves every other tag as it was |
| ModifyOld.ModifyTagsOthers | Dicom/Data/DcmModify.cs:104-106 | tags outside the list keep their items |
| ModifyOld.ModifyTagsRemove | Dicom/Data/DcmModify.cs:104-106 | Remove over a list of tags deletes exactly those tags |
| ModifyOld.ModifiedLeavesUnmatched | Dicom/Data/DcmModify.cs:101-107 | a tag the mask does not match keeps its item, whatever the rule |
| ModifyOld.ModifiedRemove | Dicom/Data/DcmModify.cs:101-107 | because the tags are listed first, Remove deletes every matching tag and no other |
| ModifyOld.Apply | Dicom/Data/DcmModify.cs:145-208 | the table becomes the corrected rule's result, and a user callback is invoked exactly when the operator is a user operator whose callback is set |
| ModifyOld.Modify | Dicom/Data/DcmModify.cs:101-107 | the tags are listed first, and the table becomes the rule applied to each in turn |
| Overlay.Assemble | Dicom/Data/DcmOverlayData.cs:152-183 | an overlay that loads belongs to the group asked for |
| Overlay.Load | Dicom/Data/DcmOverlayData.cs:50-53 | the constructed overlay belongs to the group asked for |
| Overlay.LoadDefaults | Dicom/Data/DcmOverlayData.cs:152-183 | with no element in the group every field takes the default of Load: 0 rows and columns, type "Unknown", 1 bit allocated, one frame starting at frame 1 |
| Overlay.SameItemSameReads | Dicom/Data/DcmOverlayData.cs:152-183 | each read depends only on the item under its tag |
| Overlay.LoadReadsOnlyGroup | Dicom/Data/DcmOverlayData.cs:148-150 | two datasets that agree on the overlay's group load the same overlay |
| Overlay.LoadOrigin | Dicom/Data/DcmOverlayData.cs:157-164 | the origin is taken only from an element holding exactly two values, and otherwise stays (0, 0) |
| Overlay.OverlayPixels | Dicom/Data/DcmOverlayData.cs:115-127 | the pixels fail exactly when the int size overflows, there is no data, or the data has fewer bits than pixels; otherwise there is one entry per pixel |
| Overlay.LargeOverlayFails | Dicom/Data/DcmOverlayData.cs:116 | a 65535 by 65535 overlay overflows the int array size and fails |
| Overlay.GetOverlayDataS32 | Dicom/Data/DcmOverlayData.cs:115-127 | the loop fills a new array with fg at set bits and bg at clear bits, and fails as the pixel function does |
| Overlay.BitOfPack | Dicom/Data/DcmOverlayData.cs:117-121 | a bit packed eight to a byte, least significant first, is read back by BitArray's indexing |
| Overlay.PackedOverlayUnpacks | Dicom/Data/DcmOverlayData.cs:115-127 | data packed from one bit per pixel unpacks to fg exactly at the set pixels |
| Overlay.GroupsMembers | Dicom/Data/DcmOverlayData.cs:130-137 | a group is collected exactly when it is 6000-60FF and its (60xx,0010) element is present; with the other Groups lemma, this is the contract of `Overlay.Groups` |
| Overlay.GroupsAscending | Dicom/Data/DcmOverlayData.cs:130-137 | in a sorted dataset the groups come out strictly ascending, so no group twice; with the other Groups lemma, this is the contract of `Overlay.Groups` |
| Overlay.LoadAllPrefixFails | Dicom/Data/DcmOverlayData.cs:139-142 | the first overlay that fails to load ends GetOverlays with its failure |
| Overlay.LoadAllGroups | Dicom/Data/DcmOverlayData.cs:139-142 | a successful list holds one overlay per collected group, in order |
| Overlay.OverlaysOnePerGroup | Dicom/Data/DcmOverlayData.cs:129-144 | the overlays are one per (60xx,0010) element, in ascending group order; this is the contract of `Overlay.Overlays` |
| Overlay.CollectGroups | Dicom/Data/DcmOverlayData.cs:130-137 | the first loop collects exactly the overlay groups in table order |
| Overlay.GetOverlays | Dicom/Data/DcmOverlayData.cs:129-144 | the loops give the overlays of the collected groups |
| RleCodec.EncodedAppend | Dicom/Codec/DcmRleCodec.cs:130-210 | appending a run appends its bytes to the segment and its expansion to what the segment stands for |
| RleCodec.RunHeaderRules | Dicom/Codec/DcmRleCodec.cs:149-155 | a literal header is the byte count less one, below 0x80; a replicate header is 257 less the copy count; no header written is 0x80 |
| RleCodec.StepAsWritten | Dicom/Codec/DcmRleCodec.cs:320-335 | one pass of the decoding loop, as written, always moves past its header |
| RleCodec.Step | Dicom/Codec/DcmRleCodec.cs:320-335 | the corrected pass, with header 0x80 a no-op, always moves past its header |
| RleCodec.NoOpHeaderCounterexample | Dicom/Codec/DcmRleCodec.cs:321-325 | the segment 80 00 41 decodes to 129 zero bytes as written, and to the single byte 41 when 0x80 is a no-op |
| RleCodec.OneRun | Dicom/Codec/DcmRleCodec.cs:316-337 | a segment that starts with the bytes of a valid run decodes that run first, under both decodings |
| RleCodec.PadDecodesToNothing | Dicom/Codec/DcmRleCodec.cs:328-331 | the pad byte of an odd-length segment decodes to nothing, because the literal run is cut at the segment end |
| RleCodec.Lossless | Dicom/Codec/DcmRleCodec.cs:316-337 | valid runs laid out one after another in the data, with or without a pad byte, decode to exactly what the runs stand for, under both decodings |
| RleCodec.ReplicateChunksExpand | Dicom/Codec/DcmRleCodec.cs:153-158 | the replicate runs written stand for exactly the pending copies, in runs of 128 but the last |
| RleCodec.LiteralChunksExpand | Dicom/Codec/DcmRleCodec.cs:166-170 | the literal runs written stand for exactly the buffered bytes |
| RleCodec.LiteralChunksShort | Dicom/Codec/DcmRleCodec.cs:192-196 | at most 128 buffered bytes go out as one literal run |
| RleCodec.PendingRunsExpand | Dicom/Codec/DcmRleCodec.cs:134-210 | whatever Encode and Flush write for the pending copies stands for exactly those copies |
| RleCodec.EmittedHeadersAvoidNoOp | Dicom/Codec/DcmRleCodec.cs:149-201 | the encoder never writes the header 0x80, so the two decodings agree on its output |
| RleCodec.SegmentAtDecodes | Dicom/Codec/DcmRleCodec.cs:316-337 | a segment laid out in the data decodes to what its runs stand for |
| RleCodec.ReadLE32Inverts | Dicom/Codec/DcmRleCodec.cs:222-228 | a word written least significant byte first reads back as itself |
| RleCodec.WordsAt | Dicom/Codec/DcmRleCodec.cs:222-228 | header word k sits at bytes 4k to 4k+4 |
| RleCodec.RleEncoder.constructor | Dicom/Codec/DcmRleCodec.cs:94-105 | a new encoder has no segment, fifteen zero offsets, a 64-byte header in its stream and nothing pending |
| RleCodec.RleEncoder.MoveBuffer | Dicom/Codec/DcmRleCodec.cs:214-220 | the first n buffered bytes go to the stream and the rest move to the front |
| RleCodec.RleEncoder.WriteHeader | Dicom/Codec/DcmRleCodec.cs:222-228 | the first 64 bytes become the count and the fifteen offsets, and the rest of the stream is kept |
| RleCodec.RleEncoder.WriteReplicates | Dicom/Codec/DcmRleCodec.cs:153-158 | the pending copies go out as replicate runs of at most 128 |
| RleCodec.RleEncoder.WriteLiteralChunk | Dicom/Codec/DcmRleCodec.cs:166-170 | one literal run of at most 128 buffered bytes is written and taken off the buffer |
| RleCodec.RleEncoder.WriteLiterals | Dicom/Codec/DcmRleCodec.cs:166-170 | all buffered bytes go out as literal runs of at most 128 |
| RleCodec.RleEncoder.WriteChange | Dicom/Codec/DcmRleCodec.cs:134-170 | the pending copies of the previous byte go out: one or two as a literal run, more as replicate runs |
| RleCodec.RleEncoder.Encode | Dicom/Codec/DcmRleCodec.cs:130-175 | a repeat is only counted; another byte writes out the pending copies; the runs written so far plus the pending copies stand for every byte given |
| RleCodec.RleEncoder.EncodeChange | Dicom/Codec/DcmRleCodec.cs:133-174 | a new byte writes out the pending copies and starts a count of one |
| RleCodec.RleEncoder.ChangeFields | Dicom/Codec/DcmRleCodec.cs:133-174 | the runs written stand for exactly the pending bytes before the change |
| RleCodec.RleEncoder.EncodeBytes | Dicom/Codec/DcmRleCodec.cs:177-182 | every byte of the array is given to Encode in turn |
| RleCodec.RleEncoder.WritePending | Dicom/Codec/DcmRleCodec.cs:184-210 | the pending copies go out: one as a literal run, two or more as replicate runs |
| RleCodec.RleEncoder.Flush | Dicom/Codec/DcmRleCodec.cs:184-210 | afterwards nothing is pending and the runs of the segment stand for every byte given |
| RleCodec.RleEncoder.NextSegment | Dicom/Codec/DcmRleCodec.cs:123-128 | the segment is flushed, padded to even length, and its end recorded as the next offset; a sixteenth segment overruns the offset table and fails |
| RleCodec.RleEncoder.CloseSegment | Dicom/Codec/DcmRleCodec.cs:125-127 | the stream is padded to even length and its length recorded as the next segment's offset |
| RleCodec.RleEncoder.CloseFields | Dicom/Codec/DcmRleCodec.cs:125-127 | at most one zero byte is added, so the stream length is even |
| RleCodec.RleEncoder.RecordOffset | Dicom/Codec/DcmRleCodec.cs:127 | exactly one offset of the table changes |
| RleCodec.RleEncoder.GetBuffer | Dicom/Codec/DcmRleCodec.cs:117-121 | the buffer's header counts the segments, and every segment decodes back to the bytes given to the encoder for it |
| RleCodec.PadEven | Dicom/Codec/DcmRleCodec.cs:125-126 | padding gives an even length, adding at most one zero byte at the end |
| RleCodec.LayoutDecodes | Dicom/Codec/DcmRleCodec.cs:117-128 | a stream laid out segment by segment under a header recording its offsets decodes segment by segment |
| RleCodec.ReadHeader | Dicom/Codec/DcmRleCodec.cs:289-298 | the header is read exactly when the data holds 64 bytes, and the decoder keeps the data and fifteen offsets |
| RleCodec.ReadHeaderBytes | Dicom/Codec/DcmRleCodec.cs:289-298 | a header as the encoder writes it reads back as its count and offsets |
| RleCodec.SegmentBoundsEnd | Dicom/Codec/DcmRleCodec.cs:341-354 | a segment ends at the next offset, or at the end of the data for the last; an index past the fifteen offsets fails |
| RleCodec.SegmentOutput | Dicom/Codec/DcmRleCodec.cs:306-314 | a segment number outside the count fails as out of range |
| RleCodec.SegmentOutputDecodes | Dicom/Codec/DcmRleCodec.cs:289-354 | the segments of an encoder's buffer decode, through the header the decoder reads, to the bytes given to the encoder |
| RleCodec.DecodeSegment | Dicom/Codec/DcmRleCodec.cs:306-314 | the decoded segment is written to the front of the buffer when it fits; a bad segment number changes nothing |
| RleCodec.BlockCopy | Dicom/Codec/DcmRleCodec.cs:332 | the copy succeeds exactly when both ranges are in their arrays, and then changes only the target range |
| RleCodec.Fill | Dicom/Codec/DcmRleCodec.cs:324-325 | the fill succeeds exactly when it stays inside the buffer, and then writes c copies from pos |
| RleCodec.DecodeRuns | Dicom/Codec/DcmRleCodec.cs:316-337 | the loop succeeds exactly when the segment decodes and fits, and then the buffer starts with the decoded bytes |
| RleCodec.DecodeRun | Dicom/Codec/DcmRleCodec.cs:320-335 | one pass writes the run's bytes at pos and nothing else |
| RleCodec.ReplicateStepAt | Dicom/Codec/DcmRleCodec.cs:321-326 | a header of 0x80 or more writes 257 less it copies of the next byte |
| RleCodec.LiteralStepAt | Dicom/Codec/DcmRleCodec.cs:327-335 | a header below 0x80 copies header plus one bytes, cut at the segment end |
| RleFrame.DefaultParameters | Dicom/Codec/DcmRleCodec.cs:71-73 | the default RLE parameters keep the normal byte order |
| RleFrame.ReverseByteOrder | Dicom/Codec/DcmRleCodec.cs:233-236 | the byte order is reversed exactly when RLE parameters asking for it were passed; anything else falls back to the defaults |
| RleFrame.SegmentLength | Dicom/Codec/DcmRleCodec.cs:240 | the segment length is even and is the pixel count, rounded up by one when odd |
| RleFrame.ByteOffset | Dicom/Codec/DcmRleCodec.cs:264-267 | the byte of the sample a segment carries lies inside the sample |
| RleFrame.PositionDecompose | Dicom/Codec/DcmRleCodec.cs:249-272 | the frame offset of pixel p of segment s lies in the frame, and segment and pixel can be read back from it |
| RleFrame.PositionCovers | Dicom/Codec/DcmRleCodec.cs:381-404 | every byte of the frame is the position of some pixel of some segment, in both planar configurations |
| RleFrame.PositionInjective | Dicom/Codec/DcmRleCodec.cs:381-404 | no two (segment, pixel) pairs land on the same frame byte, so the scatter loop never overwrites |
| RleFrame.PositionClosed | Dicom/Codec/DcmRleCodec.cs:269-272 | pixel p of a segment sits p strides after the segment's first byte in the frame |
| RleFrame.PositionNext | Dicom/Codec/DcmRleCodec.cs:269-272 | the next pixel of a segment is one stride further, the stride being the pixel size interleaved and the sample size planar |
| RleFrame.Gather | Dicom/Codec/DcmRleCodec.cs:269-272 | a gathered segment holds, for each pixel, the frame byte at that pixel's position for the segment |
| RleFrame.EncodeSegments | Dicom/Codec/DcmRleCodec.cs:245-275 | encoding fails exactly when there are more than 15 segments or a read would leave the frame; otherwise every segment is the run encoding of its gathered bytes |
| RleFrame.EncodeSegment | Dicom/Codec/DcmRleCodec.cs:246-272 | one segment succeeds exactly when it is one of the first 15 and all its reads are in the frame, and then the encoder holds one more gathered segment |
| RleFrame.Finish | Dicom/Codec/DcmRleCodec.cs:275 | the buffer handed to AddFrame encodes every gathered segment of the frame |
| RleFrame.EncodeOneSegment | Dicom/Codec/DcmRleCodec.cs:269-272 | the pixel loop succeeds exactly when all its reads are in the frame, and then it has fed the segment's gathered bytes to the encoder |
| RleFrame.SegmentStart | Dicom/Codec/DcmRleCodec.cs:249-267 | the starting offset and step computed for a segment are the position of its pixel 0 and the stride |
| RleFrame.GatherStep | Dicom/Codec/DcmRleCodec.cs:269-272 | gathering one pixel more appends the frame byte at that pixel's position |
| RleFrame.EncodeFrameAsWritten | Dicom/Codec/DcmRleCodec.cs:238-276 | the frame loop as written reads segmentLength pixels per segment and fails exactly when a read leaves the frame or there are more than 15 segments |
| RleFrame.EncodeFrame | Dicom/Codec/DcmRleCodec.cs:238-276 | the corrected frame loop reads pixelCount pixels per segment; for a full-size frame it fails only when there are more than 15 segments |
| RleFrame.LastPlanePastEnd | Dicom/Codec/DcmRleCodec.cs:240-272 | the position of the pixel one past the end of the last sample's segment lies outside the frame |
| RleFrame.OddPixelCountOverRead | Dicom/Codec/DcmRleCodec.cs:240-272 | with an odd pixel count, reading segmentLength pixels per segment reads past the end of the frame |
| RleFrame.FrameReadsInBounds | Dicom/Codec/DcmRleCodec.cs:249-272 | reading pixelCount pixels per segment stays inside a full-size frame |
| RleFrame.EncodePixelData | Dicom/Codec/DcmRleCodec.cs:232-277 | frames are added in order, each the encoding of its source frame; an error stops the loop at the frame with too many segments or an out-of-frame read |
| RleFrame.Assemble | Dicom/Codec/DcmRleCodec.cs:401-404 | the assembled frame has the uncompressed frame size and holds pixel p of segment s at that pair's position |
| RleFrame.ScatterStep | Dicom/Codec/DcmRleCodec.cs:401-404 | one store of the scatter loop keeps every earlier store and adds this pixel's |
| RleFrame.ScatterDone | Dicom/Codec/DcmRleCodec.cs:378-405 | once every segment is scattered the frame buffer is exactly the assembled frame, whatever it held before |
| RleFrame.Prefixed | Dicom/Codec/DcmRleCodec.cs:378-379 | prefixing decoded segments keeps success or the error of the rest and puts the prefix first |
| RleFrame.SegmentsAfterFails | Dicom/Codec/DcmRleCodec.cs:378-379 | a segment whose offsets are out of range or whose decoding fails ends the frame with that error |
| RleFrame.DecodeFrame | Dicom/Codec/DcmRleCodec.cs:372-405 | decoding one frame fails exactly when its segments do, with their error; on success the frame buffer is the assembled frame and the segment buffer is left as the last segment wrote it |
| RleFrame.DecodeStep | Dicom/Codec/DcmRleCodec.cs:379-404 | one segment step fails with the segment's error, or records the decoded segment and scatters it |
| RleFrame.ScatterSegment | Dicom/Codec/DcmRleCodec.cs:401-404 | the scatter loop places every pixel of the segment at its position and keeps the segments before it |
| RleFrame.FramesDecoded | Dicom/Codec/DcmRleCodec.cs:371-408 | the frames added are at most the compressed frames, all of them exactly when no error occurs, each of the uncompressed frame size |
| RleFrame.DecodePixelData | Dicom/Codec/DcmRleCodec.cs:358-409 | decoding the pixel data adds the decoded frames in order and stops at the first error, with one segment buffer carried across frames |
| RleFrame.SegmentsAfterGathered | Dicom/Codec/DcmRleCodec.cs:378-404 | when every segment decodes to its gathered bytes, segment decoding succeeds and each buffer holds its segment's pixels |
| RleFrame.FrameRoundTrip | Dicom/Codec/DcmRleCodec.cs:232-409 | decoding an encoded full-size frame succeeds and gives back the frame, in either byte order and planar configuration |
| RleFrame.FramesRoundTrip | Dicom/Codec/DcmRleCodec.cs:232-409 | decoding the encodings of all frames gives back all frames with no error |
| JpegCodec.Normalize | Dicom.Jpeg/DcmJpegCodec.cpp:38-41 | the parameters used are the caller's when they are JPEG parameters and the defaults otherwise |
| JpegCodec.NormalizeIdempotent | Dicom.Jpeg/DcmJpegCodec.cpp:38-41 | normalising parameters that were already used gives them back unchanged |
| JpegCodec.RunFrames | Dicom.Jpeg/DcmJpegCodec.cpp:45-47 | the frame loop produces at most one frame per index, and all of them when nothing fails |
| JpegCodec.RunAllFrames | Dicom.Jpeg/DcmJpegCodec.cpp:45-47 | when every frame succeeds, the loop produces every frame's output in frame order |
| JpegCodec.RunStopsAtFirstFailure | Dicom.Jpeg/DcmJpegCodec.cpp:45-47 | the loop stops at the first failing frame with its error, keeping exactly the frames before it |
| JpegCodec.StopsHere | Dicom.Jpeg/DcmJpegCodec.cpp:45-47 | once a frame fails, the frames after it change nothing |
| JpegCodec.EncodedPhotometric | Dicom.Jpeg/DcmJpegCodec.cpp:59-66 | RGB coded lossily becomes YBR_FULL_422 with 4:2:2 and YBR_FULL with 4:4:4; every other case keeps the current value |
| JpegCodec.DecodedPhotometric | Dicom.Jpeg/DcmJpegCodec.cpp:82-86 | a YBR_ colour space decoded lossily with conversion requested becomes RGB; every other case keeps the current value |
| JpegCodec.PhotometricRoundTrip | Dicom.Jpeg/DcmJpegCodec.cpp:59-86 | RGB coded lossily with 4:2:2 or 4:4:4 and decoded with conversion comes back as RGB |
| JpegCodec.LosslessKeepsPhotometric | Dicom.Jpeg/DcmJpegCodec.cpp:59-86 | a lossless codec leaves the photometric interpretation alone on both encode and decode |
| JpegCodec.Target.constructor | Dicom.Jpeg/DcmJpegCodec.cpp:36 | new pixel data starts with no frames, not lossy, and the given photometric interpretation |
| JpegCodec.Target.AddFrame | Dicom.Jpeg/DcmJpegCodec.cpp:46 | a frame added by the codec is appended and nothing else changes |
| JpegCodec.RunLoop | Dicom.Jpeg/DcmJpegCodec.cpp:45-47 | the loop appends the frames the run produces and returns its failure, with a negative frame count treated as none |
| JpegCodec.Encode | Dicom.Jpeg/DcmJpegCodec.cpp:36-67 | the frames are appended in order; a lossy codec marks the pixel data lossy with ISO_10918_1; the photometric interpretation follows EncodedPhotometric; a failure leaves the flags untouched |
| JpegCodec.Decode | Dicom.Jpeg/DcmJpegCodec.cpp:69-87 | the frames are appended in order, the lossy flags are untouched and the photometric interpretation follows DecodedPhotometric on success |
| JpegCodec.CodecRegistry.constructor | Dicom.Jpeg/DcmJpegCodec.cpp:89 | the codec table starts empty |
| JpegCodec.CodecRegistry.RegisterCodec | Dicom.Jpeg/DcmJpegCodec.cpp:90-93 | registering a codec for a syntax replaces any earlier one and leaves the other syntaxes alone |
| JpegCodec.Register | Dicom.Jpeg/DcmJpegCodec.cpp:89-94 | registration installs the four JPEG codec classes in the table |
| JpegCodec.RegisteredTable | Dicom.Jpeg/DcmJpegCodec.cpp:90-93 | each of the four JPEG syntaxes maps to its own codec class and every other syntax keeps its codec |
| JpegCodec.RegisterIdempotent | Dicom.Jpeg/DcmJpegCodec.cpp:89-94 | registering twice gives the same table as registering once |
| PixelFrames.BytesAllocated | trunk/Dicom/Data/DcmPixelData.cs:138-145 | the bytes per sample are BitsAllocated / 8 rounded up: enough for every bit and less than one byte more |
| PixelFrames.UncompressedFrameSize | trunk/Dicom/Data/DcmPixelData.cs:220-222 | the C# int product is congruent to Width × Height × BytesAllocated × SamplesPerPixel modulo 2^32, and equals it exactly when it is below 2^31 |
| PixelFrames.SignedRange | trunk/Dicom/Data/DcmPixelData.cs:147-162 | for 1 to 31 stored bits a signed sample ranges over -2^(BitsStored-1) .. 2^(BitsStored-1)-1, 2^BitsStored values; with the two other range lemmas, this is the contract of `PixelFrames.MinimumDataValue` and `PixelFrames.MaximumDataValue` |
| PixelFrames.UnsignedRange | trunk/Dicom/Data/DcmPixelData.cs:147-162 | for up to 31 stored bits an unsigned sample ranges over 0 .. 2^BitsStored-1; with the two other range lemmas, this is the contract of `PixelFrames.MinimumDataValue` and `PixelFrames.MaximumDataValue` |
| PixelFrames.ShiftWraps | trunk/Dicom/Data/DcmPixelData.cs:156-162 | the C# int shifts wrap: 32 unsigned bits give a maximum of 0, and 0 signed bits give the whole int range; with the two other range lemmas, this is the contract of `PixelFrames.MinimumDataValue` and `PixelFrames.MaximumDataValue` |
| PixelFrames.NativeFrame | trunk/Dicom/Data/DcmPixelData.cs:286-294 | a native frame read successfully has exactly the frame size |
| PixelFrames.NativeFrameRoundTrip | trunk/Dicom/Data/DcmPixelData.cs:286-294 | frames of one size appended in turn are read back at their index |
| PixelFrames.ConcatFixedSize | trunk/Dicom/Data/DcmPixelData.cs:288-292 | the concatenation of equal-size frames holds frame k at bytes k·size up to (k+1)·size |
| PixelFrames.Skip | trunk/Dicom/Data/DcmPixelData.cs:456-460 | the skipping loop stops at a fragment index within the sequence |
| PixelFrames.SkipExact | trunk/Dicom/Data/DcmPixelData.cs:456-460 | when the offset is the position of fragment a, the skipping loop stops exactly there, at a |
| PixelFrames.TakeExact | trunk/Dicom/Data/DcmPixelData.cs:466-470 | from fragment i, the taking loop collects exactly the fragments up to the one at the stop position |
| PixelFrames.TableSelects | trunk/Dicom/Data/DcmPixelData.cs:447-473 | an offset table entry at fragment a's position, followed by one at fragment b's (or the end), selects fragments a up to b |
| PixelFrames.GuessStart | trunk/Dicom/Data/DcmPixelData.cs:503-509 | the counted start of the unequal-length guess lies within the sequence |
| PixelFrames.FrameFragments | trunk/Dicom/Data/DcmPixelData.cs:426-522 | a single frame gets every fragment, and one fragment per frame gives frame k the k-th fragment |
| PixelFrames.GuessingEqualLengths | trunk/Dicom/Data/DcmPixelData.cs:487-499 | with equal-length fragments the guess throws when they do not divide among the frames, and otherwise hands every frame all of them |
| PixelFrames.Position | trunk/Dicom/Data/DcmPixelData.cs:458-533 | each item starts at least 8 bytes per earlier item into the sequence |
| PixelFrames.PositionMono | trunk/Dicom/Data/DcmPixelData.cs:458-468 | item positions grow by at least 8 per item |
| PixelFrames.PositionPrefix | trunk/Dicom/Data/DcmPixelData.cs:532-535 | adding fragments does not move the items already there |
| PixelFrames.Chunks | trunk/Dicom/Data/DcmPixelData.cs:537-544 | a frame is cut into pieces of between 1 and FragmentSize bytes, at least one for a non-empty frame |
| PixelFrames.ChunksConcat | trunk/Dicom/Data/DcmPixelData.cs:537-544 | the pieces put back together are the frame |
| PixelFrames.AllOffsets | trunk/Dicom/Data/DcmPixelData.cs:531-535 | adding frames writes one offset table entry per frame |
| PixelFrames.OffsetAfterIsPosition | trunk/Dicom/Data/DcmPixelData.cs:531-534 | the uint offset sum is the position after the last item, modulo 2^32 |
| PixelFrames.AllChunksPrefix | trunk/Dicom/Data/DcmPixelData.cs:537-544 | adding a frame only appends fragments |
| PixelFrames.OffsetsEntry | trunk/Dicom/Data/DcmPixelData.cs:531-535 | the k-th offset table entry is the offset after the fragments of the first k frames |
| PixelFrames.OffsetIsPosition | trunk/Dicom/Data/DcmPixelData.cs:531-535 | when positions stay below 2^32, the k-th table entry is the position of frame k's first fragment |
| PixelFrames.ChunksGrow | trunk/Dicom/Data/DcmPixelData.cs:537-544 | each non-empty frame adds at least one fragment |
| PixelFrames.FrameSlice | trunk/Dicom/Data/DcmPixelData.cs:526-545 | frame k's pieces sit between the fragment counts after k and after k+1 frames |
| PixelFrames.OneChunkEach | trunk/Dicom/Data/DcmPixelData.cs:442-544 | when there are as many fragments as frames, each frame added exactly one |
| PixelFrames.TableRecovers | trunk/Dicom/Data/DcmPixelData.cs:447-544 | the offset table built by adding frames selects each frame's pieces |
| PixelFrames.EncapsulatedRoundTrip | trunk/Dicom/Data/DcmPixelData.cs:426-545 | frames added one by one to an empty fragment sequence are read back piece for piece by GetFrameFragments |
| PixelFrames.EncapsulatedFrameBytes | trunk/Dicom/Data/DcmPixelData.cs:260-286 | reassembled, the fragments read back for frame k are frame k's bytes |
| PixelFrames.MasksAsWritten | trunk/Dicom/Data/DcmPixelData.cs:339-374 | the masks built with C# int shifts keep the low HighBit mod 32 and (HighBit+1) mod 32 bits, even where the subtraction wraps |
| PixelFrames.SignedSampleAsWritten | trunk/Dicom/Data/DcmPixelData.cs:339-350 | as written, a signed sample is the HighBit bit as a sign over the magnitude below it: symmetric, and negative only with a non-zero magnitude |
| PixelFrames.SignedSample | trunk/Dicom/Data/DcmPixelData.cs:336-369 | the corrected signed sample is two's complement on HighBit+1 bits: from -2^HighBit to 2^HighBit-1, negative exactly when the HighBit bit is set |
| PixelFrames.TwosComplement | trunk/Dicom/Data/DcmPixelData.cs:336-369 | the stored form of a value is below 2^bits and congruent to it |
| PixelFrames.SignedSampleRoundTrip | trunk/Dicom/Data/DcmPixelData.cs:336-369 | every value of the signed sample range survives storing and decoding |
| PixelFrames.SignedSampleAsWrittenMisreads | trunk/Dicom/Data/DcmPixelData.cs:345-349 | as written the 8-bit sample 0xFF with HighBit 7 reads -127; in two's complement it is -1 |
| PixelFrames.SignedSampleAsWrittenNegativeZero | trunk/Dicom/Data/DcmPixelData.cs:345-349 | as written 0x80 and 0x00 both read 0, so -128 cannot be represented |
| PixelFrames.UnsignedSample | trunk/Dicom/Data/DcmPixelData.cs:374-379 | an unsigned sample is the stored value reduced to its low (HighBit+1) mod 32 bits |
| PixelFrames.UnsignedSampleKeepsStored | trunk/Dicom/Data/DcmPixelData.cs:374-379 | a stored value that fits in HighBit+1 bits is read unchanged |
| PixelFrames.Rgb | trunk/Dicom/Data/DcmPixelData.cs:411-417 | the packed colour is below 2^24 and its three bytes are c0, c1 and c2, without overlap |
| PixelFrames.Interleaved | trunk/Dicom/Data/DcmPixelData.cs:416-418 | interleaved colours are three bytes per pixel, in sample order |
| PixelFrames.Plane | trunk/Dicom/Data/DcmPixelData.cs:407-412 | a colour plane holds one sample of every pixel |
| PixelFrames.InterleavedDecodes | trunk/Dicom/Data/DcmPixelData.cs:414-420 | interleaved colours decode back to each pixel's packed colour |
| PixelFrames.PlanesDecode | trunk/Dicom/Data/DcmPixelData.cs:405-413 | planar colours decode back to each pixel's packed colour |
| PixelFrames.WordsRoundTrip | trunk/Dicom/Data/DcmPixelData.cs:297-329 | reading little-endian bytes as 16-bit words inverts writing the words |
| PixelFrames.SkipTo | trunk/Dicom/Data/DcmPixelData.cs:456-460 | the skipping loop computes the stop position and index of Skip |
| PixelFrames.TakeUntil | trunk/Dicom/Data/DcmPixelData.cs:466-470 | the taking loop collects the fragments Take describes |
| PixelFrames.SameLengths | trunk/Dicom/Data/DcmPixelData.cs:479-485 | the check loop answers whether every fragment has the first one's length |
| PixelFrames.FindStart | trunk/Dicom/Data/DcmPixelData.cs:503-509 | the counting loop finds the start GuessStart describes |
| PixelFrames.TakeShort | trunk/Dicom/Data/DcmPixelData.cs:511-515 | the collecting loop takes fragments up to and including the first of a different length |
| PixelFrames.SelectFragments | trunk/Dicom/Data/DcmPixelData.cs:426-522 | the fragments returned are those FrameFragments describes |
| PixelFrames.SumOffsets | trunk/Dicom/Data/DcmPixelData.cs:531-534 | the offset loop computes the wrapped position after the last fragment |
| PixelFrames.Split | trunk/Dicom/Data/DcmPixelData.cs:537-544 | the chunking loop produces the pieces Chunks describes |
| PixelFrames.Join | trunk/Dicom/Data/DcmPixelData.cs:276-283 | the copy loop concatenates the fragments |
| PixelFrames.TotalLengthIsLength | trunk/Dicom/Data/DcmPixelData.cs:252-274 | the summed int length of the fragments is the length of their concatenation while it fits in an int |
| PixelFrames.Measure | trunk/Dicom/Data/DcmPixelData.cs:252-256 | the size loop computes the summed int length |
| PixelFrames.MonoSamples | trunk/Dicom/Data/DcmPixelData.cs:341-392 | one decoded value per pixel |
| PixelFrames.DecodeMono | trunk/Dicom/Data/DcmPixelData.cs:336-394 | the single-sample loops fill a new array with each pixel's decoded sample |
| PixelFrames.ColourSamples | trunk/Dicom/Data/DcmPixelData.cs:402-420 | one packed colour per pixel |
| PixelFrames.DecodeColour | trunk/Dicom/Data/DcmPixelData.cs:402-421 | the three-sample loops fill a new array with each pixel's packed colour, planar or interleaved |
| PixelData.NewItem | trunk/Dicom/Data/DcmPixelData.cs:576-589 | a new pixel data item is empty, a fragment sequence (OB) exactly when the transfer syntax is encapsulated, and native OW exactly when more than 8 bits are allocated |
| PixelData.Padding | trunk/Dicom/Data/DcmPixelData.cs:91-100 | reading the padding value fails only when a padding element is present |
| PixelData.ReadEmpty | trunk/Dicom/Data/DcmPixelData.cs:75-101 | a dataset without any of the attributes gives one frame, zero sizes, no item and no padding |
| PixelData.ReadState | trunk/Dicom/Data/DcmPixelData.cs:75-101 | on success: without a HighBit element the high bit is BitsAllocated - BitsStored wrapped to 16 bits; a padding element that is neither US nor SS stands for the smallest sample value; padding is flagged exactly when the element is present; the fragment size starts unlimited |
| PixelData.SwapPairs | trunk/Dicom/Data/DcmPixelData.cs:264-266 | switching OW data to big-endian reverses each pair of bytes |
| PixelData.SwapPairsUnique | trunk/Dicom/Data/DcmPixelData.cs:264-266 | pair reversal determines its result |
| PixelData.FixByteOrder | trunk/Dicom/Data/DcmPixelData.cs:264-266 | after the switch the item is no longer 8-bit OW little-endian, and stays native or not as it was |
| PixelData.FrameBytesStable | trunk/Dicom/Data/DcmPixelData.cs:260-295 | reading a frame leaves every frame reading the same bytes as before |
| PixelData.FrameSizeOfBytes | trunk/Dicom/Data/DcmPixelData.cs:243-295 | GetFrameSize reports the length of what GetFrameDataU8 returns |
| PixelData.SignedFrameDecodes | trunk/Dicom/Data/DcmPixelData.cs:336-352 | an 8-bit signed frame holding the two's complement forms of values in the sample range decodes to those values |
| PixelData.EncapsulatedBuild | trunk/Dicom/Data/DcmPixelData.cs:526-545 | adding frames to an empty fragment sequence gives the offset table and fragments of adding each in turn |
| PixelData.NativeBuild | trunk/Dicom/Data/DcmPixelData.cs:547 | adding frames to empty native data concatenates them |
| PixelData.NativeReadBack | trunk/Dicom/Data/DcmPixelData.cs:260-295 | native frames of the uncompressed frame size added to a new item read back one by one |
| PixelData.EncapsulatedReadBack | trunk/Dicom/Data/DcmPixelData.cs:260-286 | encapsulated frames added to a new item come back as their pieces, and joined as the frames |
| PixelData.AsWrittenEightBitSwapped | trunk/Dicom/Data/DcmPixelData.cs:582-587 | as written a new 8-bit native item is OW little-endian, so a frame added to it reads back with its byte pairs exchanged; with the corrected item it reads back as added |
| PixelData.SwapPairsChanges | trunk/Dicom/Data/DcmPixelData.cs:264-266 | exchanging the pair 1, 2 changes it |
| PixelData.DcmPixelData.constructor | trunk/Dicom/Data/DcmPixelData.cs:52-55 | a new pixel data object holds the initial state with an empty item for the transfer syntax |
| PixelData.DcmPixelData.Copy | trunk/Dicom/Data/DcmPixelData.cs:57-73 | copying keeps the image attributes and padding value and starts with no frames and a new item |
| PixelData.DcmPixelData.FromDataset | trunk/Dicom/Data/DcmPixelData.cs:75-101 | construction from a dataset succeeds exactly when every attribute reads, giving a new object in the state read; otherwise it fails with the first reading error |
| PixelData.DcmPixelData.CreatePixelDataItem | trunk/Dicom/Data/DcmPixelData.cs:576-589 | the frame count is reset and the item replaced by a new empty one; nothing else changes |
| PixelData.DcmPixelData.GetFrameFragments | trunk/Dicom/Data/DcmPixelData.cs:426-522 | the fragments returned are the frame's, with the out-of-range, null and not-fragmented errors |
| PixelData.DcmPixelData.GetFrameSize | trunk/Dicom/Data/DcmPixelData.cs:243-258 | the size is the uncompressed frame size for native data and the summed fragment lengths otherwise |
| PixelData.DcmPixelData.GetFrameDataU8 | trunk/Dicom/Data/DcmPixelData.cs:260-295 | the frame's bytes, after switching 8-bit OW little-endian data to big-endian in place |
| PixelData.DcmPixelData.GetFrameDataU16 | trunk/Dicom/Data/DcmPixelData.cs:297-329 | the frame's bytes as little-endian words |
| PixelData.DcmPixelData.GetFrameDataS32 | trunk/Dicom/Data/DcmPixelData.cs:331-424 | a new array of the decoded samples, or the error for unsupported sizes, samples or colour spaces |
| PixelData.DcmPixelData.AddFrame | trunk/Dicom/Data/DcmPixelData.cs:526-549 | the frame count goes up and the frame is appended, as pieces with an offset entry when fragmented; a null or non-element item fails |
| StreamReader.WordBytes | trunk/Dicom/IO/DicomStreamReader.cs:302-307 | a 16-bit value built from two bytes gives those bytes back as its high and low halves |
| StreamReader.UInt32Halves | trunk/Dicom/IO/DicomStreamReader.cs:435-473 | a 32-bit length is its two 16-bit halves in the stream's byte order |
| StreamReader.TagAt | trunk/Dicom/IO/DicomStreamReader.cs:302-307 | a tag is read as its group then its element, each in the stream's byte order |
| StreamReader.AsciiChar | trunk/Dicom/IO/DicomStreamReader.cs:352 | a VR byte below 0x80 is read as the character with that code |
| StreamReader.LengthWidth | trunk/Dicom/IO/DicomStreamReader.cs:428-481 | the length field is 4 bytes in implicit VR and for the item and delimiter tags; in explicit VR it is 2 bytes exactly for the VRs with a 16-bit length, and 6 (2 reserved and 4) otherwise |
| StreamReader.LengthAt | trunk/Dicom/IO/DicomStreamReader.cs:435-473 | a 2-byte length is a 16-bit value, a 4-byte one a 32-bit value, and a 6-byte one skips 2 reserved bytes before the 32-bit value |
| StreamReader.HeaderSizes | trunk/Dicom/IO/DicomStreamReader.cs:298-489 | an element header is 8 bytes in implicit VR and for item and delimiter tags, and 8 or 12 bytes in explicit VR depending on the VR |
| StreamReader.ImplicitVR | trunk/Dicom/IO/DicomStreamReader.cs:361-369 | in implicit VR a group length is UL, a private creator under ForcePrivateCreatorToLO is UN, and anything else takes the dictionary's VR |
| StreamReader.LookAhead | trunk/Dicom/IO/DicomStreamReader.cs:378-419 | the look-ahead asks for 2 or 4 more bytes when they are missing, settles on SQ or UN, or runs past the end of the stream |
| StreamReader.LookAheadFindsSequences | trunk/Dicom/IO/DicomStreamReader.cs:391-416 | with the bytes present, a private UN is a sequence exactly when its length is undefined, or non-zero and followed by an item or sequence delimiter tag |
| StreamReader.SettleVR | trunk/Dicom/IO/DicomStreamReader.cs:371-423 | a VR other than UN is kept; a UN group length is UL; a standard UN takes the dictionary VR in implicit VR or with UseDictionaryForExplicitUN; only a private non-creator UN with seeking allowed is looked ahead at |
| StreamReader.ShortItemNeedAsWrittenWraps | trunk/Dicom/IO/DicomStreamReader.cs:505-521 | as written a short item asks for 2^32 minus its shortfall: 2 bytes left of a 10-byte item ask for 4294967288 |
| StreamReader.ShortItemNeed | trunk/Dicom/IO/DicomStreamReader.cs:279 | the corrected need is positive and is exactly the shortfall, as for a short element value |
| StreamReader.ReachedEndAsWrittenMisses | trunk/Dicom/IO/DicomStreamReader.cs:245 | as written a nested reader standing exactly at the end of a sequence or item does not see it; the corrected test does; with the other end-test lemma, this is the contract of `StreamReader.ReachedEnd` and `StreamReader.ReachedEndAsWritten` |
| StreamReader.ReachedEndAgrees | trunk/Dicom/IO/DicomStreamReader.cs:245 | the corrected end test agrees with the written one for a reader that is not nested; with the other end-test lemma, this is the contract of `StreamReader.ReachedEnd` and `StreamReader.ReachedEndAsWritten` |
| StreamReader.InEndian | trunk/Dicom/IO/DicomStreamReader.cs:255-266 | re-stamping an object with the dataset's byte order keeps its kind |
| StreamReader.GrowsTrans | trunk/Dicom/IO/DicomStreamReader.cs:255-276 | objects are only ever added, never changed in kind, across any run of steps |
| StreamReader.AddItem | trunk/Dicom/IO/DicomStreamReader.cs:559-584 | adding an item to a dataset records it under its tag, keeps the dataset's other items and changes no other object |
| StreamReader.Advance | trunk/Dicom/IO/DicomStreamReader.cs:333-438 | consuming bytes moves bytes from remaining to read and leaves their sum alone |
| StreamReader.TreeOkGrows | trunk/Dicom/IO/DicomStreamReader.cs:76-78 | the dataset and sequence stacks and the open fragment sequence stay well formed as objects are added |
| StreamReader.Target | trunk/Dicom/IO/DicomStreamReader.cs:560-576 | a new item goes to the top item dataset or to the reader's dataset |
| StreamReader.TargetIsDataset | trunk/Dicom/IO/DicomStreamReader.cs:560-561 | in a well-formed tree the target of an insert is a dataset |
| StreamReader.DicomStreamReader.constructor | trunk/Dicom/IO/DicomStreamReader.cs:86-90 | a new reader reads explicit VR little endian, with nothing pending and all counters zero |
| StreamReader.DicomStreamReader.SetDataset | trunk/Dicom/IO/DicomStreamReader.cs:120-126 | setting the dataset adopts its transfer syntax and keeps the stream, counters and pending header |
| StreamReader.DicomStreamReader.Receive | trunk/Dicom/IO/DicomStreamReader.cs:208 | more bytes arriving extend the stream and change nothing else |
| StreamReader.DicomStreamReader.BytesEstimated | trunk/Dicom/IO/DicomStreamReader.cs:131-133 | the estimate exceeds the bytes counted so far by the bytes still needed |
| StreamReader.DicomStreamReader.NeedMore | trunk/Dicom/IO/DicomStreamReader.cs:190-193 | a shortage is reported as NeedMoreData with the need recorded as a uint |
| StreamReader.DicomStreamReader.ParseTag | trunk/Dicom/IO/DicomStreamReader.cs:298-346 | a pending tag is kept; otherwise four bytes are read as the tag, or NeedMoreData(4); FileMetaInfoOnly stops before a group other than 0x0002; a tag at or after the stop tag ends the read |
| StreamReader.DicomStreamReader.ParseVR | trunk/Dicom/IO/DicomStreamReader.cs:348-426 | a pending VR is kept; explicit VR reads two characters or asks for 2; the VR is then settled as SettleVR says, a look-ahead leaving the stream where it was |
| StreamReader.DicomStreamReader.ParseLength | trunk/Dicom/IO/DicomStreamReader.cs:428-489 | a pending length is kept; otherwise a length field of the width LengthWidth gives is read, or exactly that many bytes are asked for |
| StreamReader.DicomStreamReader.InsertDatasetItem | trunk/Dicom/IO/DicomStreamReader.cs:559-584 | the item goes into the target dataset unless it is a group length without KeepGroupLengths; an item dataset whose end the stream has reached is closed |
| StreamReader.DicomStreamReader.CloseEndedSequence | trunk/Dicom/IO/DicomStreamReader.cs:239-251 | a defined-length top sequence whose end the stream has reached is closed, with its item dataset when that is open |
| StreamReader.DicomStreamReader.InsertFragmentItem | trunk/Dicom/IO/DicomStreamReader.cs:491-516 | a complete item becomes the offset table first and a fragment afterwards; a short one asks for its shortfall; the sequence delimiter closes the fragment sequence; any other tag is an error |
| StreamReader.DicomStreamReader.OpenItem | trunk/Dicom/IO/DicomStreamReader.cs:523-529 | a new item closes the open item dataset and adds a new empty one to the top sequence |
| StreamReader.DicomStreamReader.ReadItem | trunk/Dicom/IO/DicomStreamReader.cs:531-542 | a defined-length item that has arrived is consumed whole and read by a nested reader into its dataset |
| StreamReader.DicomStreamReader.InsertSequenceItem | trunk/Dicom/IO/DicomStreamReader.cs:518-557 | an item opens a new item dataset, pushed when its length is undefined and read at once when it has arrived; a short item asks for its shortfall; the delimiters close the item and the sequence |
| StreamReader.DicomStreamReader.OpenSequence | trunk/Dicom/IO/DicomStreamReader.cs:253-269 | an SQ element becomes a new empty sequence, inserted and pushed on the sequence stack |
| StreamReader.DicomStreamReader.OpenFragments | trunk/Dicom/IO/DicomStreamReader.cs:259-262 | an undefined-length value of another VR becomes a new open fragment sequence, inserted into the dataset |
| StreamReader.DicomStreamReader.InsertValue | trunk/Dicom/IO/DicomStreamReader.cs:271-276 | a defined-length value that has arrived becomes an element holding its bytes and is inserted |
| StreamReader.DicomStreamReader.InsertElement | trunk/Dicom/IO/DicomStreamReader.cs:253-282 | an element opens a sequence or fragment sequence or is inserted whole; a value not yet arrived asks for its shortfall |
| StreamReader.DicomStreamReader.ParseHeader | trunk/Dicom/IO/DicomStreamReader.cs:211-223 | a complete header is pending after success, and at least the tag has been consumed when none was pending |
| StreamReader.DicomStreamReader.Dispatch | trunk/Dicom/IO/DicomStreamReader.cs:226-287 | a private creator read as UN becomes LO; the element goes to the fragment sequence, the top sequence or the target dataset; success resets the pending header |
| StreamReader.DicomStreamReader.Step | trunk/Dicom/IO/DicomStreamReader.cs:211-287 | one pass of the loop either completes an element with strictly less left to do or stops with a reason |
| StreamReader.DicomStreamReader.Read | trunk/Dicom/IO/DicomStreamReader.cs:201-296 | the read ends with Success when the stream is used up or a stop condition met, otherwise with NeedMoreData and a positive need, and every byte taken from the remaining count is counted as read |
| Print.GenerateUidInjective | Dicom/Data/DcmUID.cs:74-78 | two UIDs generated under one base with different sequence numbers differ |
| Print.GetString | trunk/DicomPrintScp/DicomPrint.cs:447-449 | a string attribute getter answers the stored string when one is present and its default otherwise |
| Print.GetUInt16 | trunk/DicomPrintScp/DicomPrint.cs:455-457 | a US attribute getter answers the stored number when one is present and its default otherwise |
| Print.DisplayFormat | trunk/DicomPrintScp/DicomPrint.cs:384-386 | the Image Display Format is present exactly when the dataset holds it as a string |
| Print.Get | trunk/DicomPrintScp/DicomPrint.cs:588-601 | a getter's answer keeps the kind of its default, is the stored value when that has the same kind, and the default otherwise |
| Print.WithDefaultsKeepsGetters | trunk/DicomPrintScp/DicomPrint.cs:588-601 | writing the getters' values back stores every defaulted attribute, changes no getter's answer, keeps every other attribute and is idempotent |
| Print.DefaultsKeepDisplayFormat | trunk/DicomPrintScp/DicomPrint.cs:588-610 | the display format read after the write-back is the one the dataset came with |
| Print.ImageBoxClass | trunk/DicomPrintScp/DicomPrint.cs:673-675 | the image box class is Basic Color Image Box exactly for a Basic Color Print Management session and Basic Grayscale Image Box otherwise |
| Print.NewImageBoxes | trunk/DicomPrintScp/DicomPrint.cs:672-684 | a run of n new image boxes has n boxes |
| Print.References | trunk/DicomPrintScp/DicomPrint.cs:683 | the Referenced Image Box Sequence has one item per image box |
| Print.NewImageBoxesDistinct | trunk/DicomPrintScp/DicomPrint.cs:677-680 | the image boxes of a film box have pairwise distinct UIDs and Image Positions 1, 2, 3, ... |
| Print.NewImageBoxInherits | trunk/DicomPrintScp/DicomPrint.cs:788-891 | a new image box shows its film box's magnification, smoothing, densities and configuration, polarity NORMAL and crop behaviour DECIMATE; with the other of these two lemmas, this is the contract of the image box getters `Print.MagnificationType`, `SmoothingType`, `MinDensity`, `MaxDensity`, `ConfigurationInformation`, `ImagePosition`, `Polarity` and `RequestedDecimateCropBehavior`, and of the film box getters they fall back to |
| Print.OwnValueOverrides | trunk/DicomPrintScp/DicomPrint.cs:804-830 | a magnification, smoothing or density the image box sets itself overrides its film box's; with the other of these two lemmas, this is the contract of the image box getters `Print.MagnificationType`, `SmoothingType`, `MinDensity`, `MaxDensity`, `ConfigurationInformation`, `ImagePosition`, `Polarity` and `RequestedDecimateCropBehavior`, and of the film box getters they fall back to |
| Print.Parsed | trunk/DicomPrintScp/DicomPrint.cs:640-641 | parsing the counts gives one result per piece |
| Print.CountRunsSum | trunk/DicomPrintScp/DicomPrint.cs:636-648 | the ROW or COL format succeeds exactly when every count parses, and then lays out the sum of the counts |
| Print.CountRunsStops | trunk/DicomPrintScp/DicomPrint.cs:638-647 | once a count fails to parse the later counts add no image boxes |
| Print.CorrectionOnlyRejects | trunk/DicomPrintScp/DicomPrint.cs:608-651 | the corrected layout agrees with the code wherever it succeeds, differs only by rejecting, and an absent or empty format is rejected |
| Print.StandardLayout | trunk/DicomPrintScp/DicomPrint.cs:617-634 | "STANDARD\row,col" lays out row times col image boxes (none for a negative count) and succeeds |
| Print.RowColumnFormat | trunk/DicomPrintScp/DicomPrint.cs:636-648 | "ROW\n1,n2,..." or "COL\..." whose counts all parse lays out the sum of the counts and succeeds |
| Print.StandardRowPieces | trunk/DicomPrintScp/DicomPrint.cs:617-620 | "STANDARD\ROW,n" splits into "STANDARD" and "ROW,n", and that into "ROW" and n, which is no grid but a single run of n |
| Print.SingleRun | trunk/DicomPrintScp/DicomPrint.cs:636-648 | the ROW or COL format with a single count n lays out n image boxes |
| Print.StandardRowAsWritten | trunk/DicomPrintScp/DicomPrint.cs:617-648 | as written, "STANDARD\ROW,n" falls through to the ROW branch with the reassigned pieces and lays out n boxes; the corrected reading rejects it |
| Print.RunsJoin | trunk/DicomPrintScp/DicomPrint.cs:638-644 | a second run of image boxes continues the first, boxes and references alike |
| Print.FilmBox.constructor | trunk/DicomPrintScp/DicomPrint.cs:318-323 | a new film box has its class, UID and dataset and no image boxes |
| Print.FilmBox.CreateImageBox | trunk/DicomPrintScp/DicomPrint.cs:672-684 | appends the next image box, with the next UID and position, and its reference, and leaves the attributes alone |
| Print.FilmBox.CreateImageBoxes | trunk/DicomPrintScp/DicomPrint.cs:642-643 | n calls append n image boxes and their references (none for a negative count) |
| Print.FilmBox.CreateGrid | trunk/DicomPrintScp/DicomPrint.cs:625-627 | the nested loops append row times col image boxes and their references |
| Print.FilmBox.CreateRuns | trunk/DicomPrintScp/DicomPrint.cs:638-647 | the counts are laid out one after the other up to the first that does not parse, and the result says whether all parsed |
| Print.FilmBox.Initialize | trunk/DicomPrintScp/DicomPrint.cs:587-652 | writes the defaults back, starts a new reference sequence, lays out the image boxes the display format calls for, and answers whether the format was supported |
| Print.FilmBox.FindImageBox | trunk/DicomPrintScp/DicomPrint.cs:654-660 | finds an image box with that UID exactly when one exists |
| Print.FilmBoxUidReusedAsWritten | trunk/DicomPrintScp/DicomPrint.cs:251-265 | after two film boxes are created and the first deleted, the next film box gets the UID of the one left |
| Print.UidsOf | trunk/DicomPrintScp/DicomPrint.cs:258-273 | the film box UIDs in order, one per film box |
| Print.NumberedDistinct | trunk/DicomPrintScp/DicomPrint.cs:251-256 | UIDs numbered by rising creation numbers are distinct |
| Print.NumberedAppend | trunk/DicomPrintScp/DicomPrint.cs:251-256 | the UID with the next creation number is not yet in use, and appending it keeps the numbering |
| Print.NumberedRemove | trunk/DicomPrintScp/DicomPrint.cs:258-265 | removing a film box keeps the numbering, and its UID is no longer present |
| Print.FilmSession.UidsDistinct | trunk/DicomPrintScp/DicomPrint.cs:251-265 | no two film boxes of a session share a UID |
| Print.FilmSession.constructor | trunk/DicomPrintScp/DicomPrint.cs:123-127 | a new film session has its class and UID and no film boxes |
| Print.FilmSession.CreateFilmBox | trunk/DicomPrintScp/DicomPrint.cs:251-256 | appends a new empty film box over the dataset, with the session's image box class and a UID no present film box has |
| Print.FilmSession.DeleteFilmBox | trunk/DicomPrintScp/DicomPrint.cs:258-265 | removes the first film box with that UID and nothing else, changes nothing when there is none, and afterwards no film box has that UID |
| Print.FilmSession.FindFilmBox | trunk/DicomPrintScp/DicomPrint.cs:267-273 | finds a film box with that UID exactly when one exists, and it is the first such box in order |
| Print.FilmSession.FindImageBox | trunk/DicomPrintScp/DicomPrint.cs:275-282 | finds an image box with that UID exactly when one exists; it is the first match of the first film box, in order, that holds one |
| Association.PresContextResult.Code | Dicom/Network/DcmAssociateProfile.cs:81-89 | only an answered context has a result code, and Accept is the one answer coded 0 |
| Association.CodesDistinct | trunk/Dicom/Network/Server/CEchoService.cs:41-50 | the answers a context can be given have pairwise different codes |
| Association.DcmAssociate.constructor | Dicom/Network/DcmAssociateProfile.cs:137-144 | an association request holds the AE titles, the remote implementation, the asynchronous operations flag and the proposed contexts it was made with |
| Profiles.Weight | Dicom/Network/DcmAssociateProfile.cs:45-56 | the weight counts the matched patterns that hold a wildcard: at most 2, or 4 when implementations are matched, and 0 exactly when no matched pattern holds one |
| Profiles.WeightAsWrittenCountsQuestionMark | Dicom/Network/DcmAssociateProfile.cs:51-53 | the weight as written agrees with the intended one when implementations are matched or no '?' is in the implementation patterns, and otherwise can exceed it ("1.2?" weighs 1 instead of 0) |
| Profiles.WeightGrowsWithImplementation | Dicom/Network/DcmAssociateProfile.cs:45-56 | matching implementations adds exactly one per implementation pattern holding a wildcard |
| Profiles.FirstSupportedIsFirst | Dicom/Network/DcmAssociateProfile.cs:78-84 | the transfer syntax chosen is proposed and supported and no earlier proposal is supported; none is chosen exactly when no proposal is supported |
| Profiles.NegotiateAnswers | Dicom/Network/DcmAssociateProfile.cs:76-90 | every context is answered and keeps its id and proposals; an unknown abstract syntax is rejected; a context not yet accepted is accepted exactly when its abstract syntax is known and a proposal is supported, and then with a proposed, supported transfer syntax; this is the contract of `Profiles.Negotiate` |
| Profiles.DcmAssociateProfile.constructor | Dicom/Network/DcmAssociateProfile.cs:33-43 | a new profile has its name and patterns and no syntaxes |
| Profiles.DcmAssociateProfile.SetDefault | Dicom/Network/DcmAssociateProfile.cs:58-63 | the profile takes the supported transfer syntaxes and the supported storage classes |
| Profiles.DcmAssociateProfile.SetDefaultStorage | Dicom/Network/DcmAssociateProfile.cs:65-73 | the profile takes the supported transfer syntaxes and no abstract syntax, and every registered SOP class is appended to the shared supported storage classes |
| Profiles.DcmAssociateProfile.ChooseTransfer | Dicom/Network/DcmAssociateProfile.cs:79-84 | the loop picks the first proposed transfer syntax the profile supports |
| Profiles.DcmAssociateProfile.Apply | Dicom/Network/DcmAssociateProfile.cs:75-92 | each presentation context is answered as Negotiate says, and the contexts keep their number and order |
| Profiles.StorageUids | Dicom/Network/DcmAssociateProfile.cs:111-114 | every storage class added is a registered UID whose description mentions "Storage" |
| Profiles.SopClassUids | Dicom/Network/DcmAssociateProfile.cs:69-72 | every class added is a registered UID of SOP class type |
| Profiles.Statics.constructor | Dicom/Network/DcmAssociateProfile.cs:100-125 | the six supported transfer syntaxes in order, Verification then every storage class as supported abstract syntaxes, no profiles, and a generic profile matching everything with the defaults |
| Profiles.Statics.AddProfile | Dicom/Network/DcmAssociateProfile.cs:132-135 | a non-null profile is appended to the registered profiles; null is ignored |
| Profiles.Statics.Find | Dicom/Network/DcmAssociateProfile.cs:137-155 | with no applicable profile the generic one; otherwise a registered, applicable profile of least weight among the applicable ones |
| EchoService.EchoNegotiateAnswers | trunk/Dicom/Network/Server/CEchoService.cs:38-51 | a context is accepted exactly when it proposes Verification in Implicit or Explicit VR Little Endian, then with Implicit VR whenever that is proposed; any other abstract syntax is rejected as such; id and proposals are kept; this is the contract of `EchoService.EchoNegotiate` |
| EchoService.CEchoService.constructor | trunk/Dicom/Network/Server/CEchoService.cs:30-32 | the service starts with log id "C-Echo SCP" and nothing sent |
| EchoService.CEchoService.OnReceiveAssociateRequest | trunk/Dicom/Network/Server/CEchoService.cs:34-55 | asynchronous operations are turned off, the log id becomes the calling AE, every context is answered as EchoNegotiate says, and an accept is sent even when every context was rejected |
| EchoService.CEchoService.OnReceiveCEchoRequest | trunk/Dicom/Network/Server/CEchoService.cs:57-61 | a success response on the same presentation context to the same message id is sent, whatever the priority |
| Cache.RemoveFirst | Dicom/Utility/Cache.cs:34 | removing an absent key changes nothing, removing a present one shortens the queue by one, and no key is added |
| Cache.RemoveFirstUnique | Dicom/Utility/Cache.cs:51-68 | in a queue without duplicates, removal drops exactly that key and keeps the queue free of duplicates |
| Cache.AppendFresh | Dicom/Utility/Cache.cs:61 | appending a key not in the queue keeps it free of duplicates |
| Cache.LeastRecentUsedCache.constructor | Dicom/Utility/Cache.cs:17-22 | a new cache is empty, with its capacity |
| Cache.LeastRecentUsedCache.ContainsKey | Dicom/Utility/Cache.cs:72-76 | a key is contained exactly when it is in the removal queue |
| Cache.LeastRecentUsedCache.Get | Dicom/Utility/Cache.cs:31-39 | a hit returns the value and moves the key to the most recently used end; a miss returns the default and changes nothing; the index keys stay the queue entries, each once, within capacity |
| Cache.LeastRecentUsedCache.Remove | Dicom/Utility/Cache.cs:65-70 | the key leaves both the index and the queue, and nothing else changes |
| Cache.LeastRecentUsedCache.Add | Dicom/Utility/Cache.cs:48-63 | an existing key gets the new value and moves to the end without eviction; a new key in a full cache first evicts the least recently used one; a new key otherwise is appended; with capacity 0 the eviction fails and nothing changes |
| Cache.LeastRecentUsedCache.Clear | Dicom/Utility/Cache.cs:78-83 | both the index and the queue become empty |
| ArrayUtility.SwappedEntries | Dicom/Utility/Utility.cs:50-54 | the swap exchanges the two entries and leaves every other entry alone |
| ArrayUtility.SwapTwice | Dicom/Utility/Utility.cs:50-54 | swapping the same two entries twice restores the array |
| ArrayUtility.SwapSameIndex | Dicom/Utility/Utility.cs:50-54 | swapping an entry with itself changes nothing |
| ArrayUtility.SwapPermutes | Dicom/Utility/Utility.cs:50-54 | a swap is a permutation |
| ArrayUtility.Swap | Dicom/Utility/Utility.cs:50-54 | the array afterwards is the old one with the two entries exchanged |
| ArrayUtility.ShuffledFromPermutes | Dicom/Utility/Utility.cs:38-41 | the remaining steps of the shuffle keep the length and the multiset of entries |
| ArrayUtility.ShuffledPermutes | Dicom/Utility/Utility.cs:35-42 | whatever the generator draws within its bounds, the shuffle yields a permutation of the array |
| ArrayUtility.ShuffleShort | Dicom/Utility/Utility.cs:37 | an array of at most one entry is left unchanged |
| ArrayUtility.Shuffle | Dicom/Utility/Utility.cs:35-42 | the array afterwards is the outcome of the Fisher-Yates steps for the draws, a permutation of the old contents |
| ArrayHelper.Swap | Dicom/Utility/Helper.cs:44-48 | the array afterwards is the old one with the two entries exchanged |
| ArrayHelper.Shuffle | Dicom/Utility/Helper.cs:34-42 | returns the same array, now shuffled by the draws |
| ArrayUtilityTrunk.Swap | trunk/Dicom/Utility/Utility.cs:29-33 | the array afterwards is the old one with the two entries exchanged |
| ArrayUtilityTrunk.Shuffle | trunk/Dicom/Utility/Utility.cs:20-27 | the array afterwards is the outcome of the Fisher-Yates steps for the draws, a permutation of the old contents |
| ColorTable.GrayRamp | Dicom/Imaging/ColorTable.cs:13 | the grayscale table has 256 entries |
| ColorTable.InitGrayscaleLUT | Dicom/Imaging/ColorTable.cs:12-25 | Monochrome2 entry i is gray i and Monochrome1 entry i is gray 255 - i, in a new table |
| ColorTable.Reversed | Dicom/Imaging/ColorTable.cs:30 | the reversal has the same length and entry i is entry n - 1 - i of the input |
| ColorTable.Reverse | Dicom/Imaging/ColorTable.cs:27-32 | a new table holding the input in reverse order; the input is not touched |
| ColorTable.ReverseGrayRamp | Dicom/Imaging/ColorTable.cs:9-10 | reversing one grayscale table gives the other |
| ColorTable.LutBytes | Dicom/Imaging/ColorTable.cs:52-58 | a saved table is 768 bytes |
| ColorTable.LutOf | Dicom/Imaging/ColorTable.cs:42-45 | a loaded table has 256 entries |
| ColorTable.LoadSavedLut | Dicom/Imaging/ColorTable.cs:34-59 | loading a saved table gives the table back |
| ColorTable.SaveLoadedLut | Dicom/Imaging/ColorTable.cs:34-59 | saving a loaded table writes the file back byte for byte |
| ColorTable.LoadLUT | Dicom/Imaging/ColorTable.cs:34-50 | a table is loaded exactly from a 768-byte file, entry i taking bytes i, 256 + i and 512 + i; any other length gives null |
| ColorTable.SaveLUT | Dicom/Imaging/ColorTable.cs:52-59 | nothing is written unless the table has 256 entries, and then all red, all green, then all blue bytes |
| Syslog.Facility.Code | Dicom/Utility/SyslogTarget.cs:21-40 | facility numbers run from Kernel 0 to Local7 17 |
| Syslog.FacilityCodeInjective | Dicom/Utility/SyslogTarget.cs:21-40 | different facilities have different numbers |
| Syslog.Severity | Dicom/Utility/SyslogTarget.cs:95-103 | Info, Warn, Error and Fatal map below 7 (6, 4, 3, 2) and every other level maps to Debug 7 |
| Syslog.Priority | Dicom/Utility/SyslogTarget.cs:93-105 | the priority holds the facility in its high bits and the severity in its low three, below 144 |
| Syslog.PriorityInjective | Dicom/Utility/SyslogTarget.cs:105 | the priority determines the facility and the severity |
| Syslog.FrameParts | Dicom/Utility/SyslogTarget.cs:107 | the message starts with the priority in angle brackets, which reads back as the priority, and ends with the formatted message unchanged; this is the contract of `Syslog.Frame` |
| Syslog.Ascii | Dicom/Utility/SyslogTarget.cs:108 | ASCII encoding keeps the length and turns every character above 0x7F into '?' |
| Syslog.FirstIPv4 | Dicom/Utility/SyslogTarget.cs:77-82 | the address chosen is an IPv4 address of the list, and none is chosen exactly when the list has none |
| Syslog.FirstIPv4IsFirst | Dicom/Utility/SyslogTarget.cs:77-82 | the address chosen is the first IPv4 address of the list |
| Syslog.SyslogTarget.constructor | Dicom/Utility/SyslogTarget.cs:50-56 | host 127.0.0.1, port 514 and facility User, with no endpoint yet |
| Syslog.SyslogTarget.Write | Dicom/Utility/SyslogTarget.cs:73-115 | the endpoint is resolved on the first call only, to the resolved IPv4 address or loopback, and the datagram is the ASCII of "<priority>" and the message |
| Syslog.ResolvedAddress | Dicom/Utility/SyslogTarget.cs:84-90 | the endpoint address is IPv4, and one of the resolved addresses whenever the resolution succeeded with one |

## Left out

- File and network I/O, sockets, threads and locks are not modelled. File contents are byte sequences and sent messages are recorded values. The lock of `LeastRecentUsedCache` only serialises callers.
- Floating point is left out: rescale slope and intercept, the lossy compression ratio text, the `float`/`double` swaps and getters of `Endian` and `ByteBuffer`, and `DS`/`FD`/`FL` values.
- JPEG entropy coding (ISO/IEC 10918-1) and the IJG codecs are left out; each codec is a parameter of the JPEG wrapper.
- `Wildcard.Match`, `Regex.IsMatch`, `Regex.Replace`, `String.Format` and `String.Split` with a character set are parameters of the modules that use them.
- The DICOM data dictionary is not part of this model: Dicom/Data/DcmTags.cs, DcmTag.cs, DcmDictionary.cs and the `DcmElement` subclasses. Tags are 32-bit numbers, and elements are a VR plus value bytes.
- DcmAssociate.cs and DcmPresContext.cs are not part of this model. The association holds only what negotiation reads and sets.
- The XML load and save of association profiles, their `Description` and `Notes`, and the relative order of equal-weight profiles after `Find`'s sort are left out. `List.Sort` is not stable, so that order is not fixed by the source.
- Print SCP: `Clone`, the logging calls and the getters the film session never reads are left out.
- `DicomStreamReader`: the deferred loading of `CurrentBuffer` from a file segment, the private-creator lookup of the dictionary, the text encoding and the `EndOfStream` handling of the underlying stream are left out.
- `DcmPixelData.UpdateDataset` (writes the attributes back to a dataset) is left out.
- AddFrame (PixelData.DcmPixelData.AddFrame): requires a positive `FragmentSize`, because with 0 the source's chunking loop never ends.
- constructor (Cache.LeastRecentUsedCache.constructor): requires a non-negative size, where the source would throw when the list is allocated.
- SwapInt16 (EndianIO.SwapInt16): like `SwapInt32` and `SwapInt64`, it states the swap on the bit pattern only. That swapping twice gives back the value is proved for the unsigned swaps, not for the signed ones.
- The UID tables of both trees are literal lists, of 267 entries in the old tree and 199 in the trunk. The trunk's private transfer syntaxes JPEG XR and PNG are left out of its list; their UID text is not part of this model. The association profiles' static constructor takes the registered UIDs as a parameter.
- The registered user callbacks of `DcmModify` are an `Outside` value: the set of user operators that have one. `Apply` reports which callback is called, and the model takes the call to leave the dataset unchanged. The members that rely on this are listed below.
- `DcmUID.Generate` and `GenerateID` read the clock and `Random`; the readings are parameters.
- `LoadDicomFields`/`SaveDicomFields`, `Dump` and XML serialisation are left out. So are three `ToString` overrides: `DcmMatch.ToString` (Dicom/Data/DcmMatch.cs:128), the trunk `DcmModify.ToString` (trunk/Dicom/Data/DcmModify.cs:168) and `Endian.ToString` (Dicom/IO/Endian.cs:49). The other `ToString` overrides are modelled: `VRs.ToString`, `UidOld.ToString`, `UidTrunk.ToString`, `TransferSyntaxes.ToString` and the old `DcmModify.ToString` as `ModifyOld.Describe`.
- `SyslogTarget.Write` swallows every send error; the send is a returned datagram, so that path has no counterpart.
- Modify (ModifyTrunk.Modify): runs the corrected walk of the Findings row on trunk/Dicom/Data/DcmModify.cs:107-113, over a snapshot of the tags. The source walks the live table and skips the element after a removed one. ModifyTrunk.ModifyAsWritten is that walk.
- RunAll (ModifyTrunk.RunAll): composes the corrected `Modify`. With one Remove rule matching every tag, over (0010,0010) and (0010,0020), the source keeps (0010,0020) and the model removes both.
- ApplyTo (ModifyOld.ApplyTo): uses the corrected AddOrReplace of the Findings row on Dicom/Data/DcmModify.cs:178-183. With (0010,0010) holding "X" and a rule with output "Y", the source keeps "X" and the model stores "Y".
- Apply (ModifyOld.Apply): runs the corrected `ApplyTo`, with the same difference.
- Modify (ModifyOld.Modify): applies the corrected rule to each listed tag, with the same difference.
- MonoSamples (PixelFrames.MonoSamples): reads signed samples in two's complement, the corrected half of the Findings row on trunk/Dicom/Data/DcmPixelData.cs:339-350. The source reads 0xFF with HighBit 7 as -127; the model reads -1.
- DecodeMono (PixelFrames.DecodeMono): stores the same corrected signed samples.
- GetFrameDataS32 (PixelData.DcmPixelData.GetFrameDataS32): decodes signed samples in two's complement, with the same difference.
- SignedFrameDecodes (PixelData.SignedFrameDecodes): holds of the corrected decoding only. Under the source's reading the stored form 0xFF of -1 decodes to -127.
- NewItem (PixelData.NewItem): makes OB for 8-bit native data and OW for wider data, the corrected half of the Findings row on trunk/Dicom/Data/DcmPixelData.cs:582-587. The source makes the reverse.
- constructor (PixelData.DcmPixelData.constructor): builds its item with the corrected `NewItem`. For a native syntax with BitsAllocated 0 the source makes OW and the model OB.
- Copy (PixelData.DcmPixelData.Copy): builds the new item with the corrected `NewItem`, with the same difference.
- CreatePixelDataItem (PixelData.DcmPixelData.CreatePixelDataItem): uses the corrected `NewItem`. Native data of 16 bits is OB in the source and OW in the model.
- InsertFragmentItem (StreamReader.DicomStreamReader.InsertFragmentItem): a short item asks for the corrected shortfall. With 2 bytes left of a 10-byte item the source asks for 4294967288 bytes and the model for 8.
- InsertSequenceItem (StreamReader.DicomStreamReader.InsertSequenceItem): asks for the corrected shortfall, with the same difference.
- CloseEndedSequence (StreamReader.DicomStreamReader.CloseEndedSequence): tests the end of a sequence against the position plus the offset. The source subtracts the offset, so in a nested reader with an offset above 0 it closes the sequence at a different element.
- InsertDatasetItem (StreamReader.DicomStreamReader.InsertDatasetItem): uses the same corrected end test.
- Step (StreamReader.DicomStreamReader.Step): inherits both corrections of the reader above.
- Read (StreamReader.DicomStreamReader.Read): inherits both corrections through `Step`.
- Initialize (Print.FilmBox.Initialize): lays out the corrected reading of the display format. For "STANDARD\ROW,2" the source makes 2 image boxes and returns true; the model makes none and returns false.
- CreateFilmBox (Print.FilmSession.CreateFilmBox): numbers film box UIDs with a creation counter. The source numbers them by the count of boxes plus one, so it reuses a UID after a delete.
- DeleteFilmBox (Print.FilmSession.DeleteFilmBox): "no film box has that UID afterwards" holds under the corrected numbering only. In the source two boxes can share a UID, and deleting one leaves the other.
- UidsDistinct (Print.FilmSession.UidsDistinct): an invariant of the corrected numbering. In the source, create two boxes, delete the first and create another: two boxes share a UID.
- Find (Profiles.Statics.Find): ranks by the corrected `Weight`. Take P1 with remote implementation "1.2?" and P2 with "1", both with the same SCP and SCU, and matchImplementation false. The source weighs them 1 and 0 and returns P2; the model weighs both 0 and returns P1.
- WriteReadRoundTrip (EndianIO.WriteReadRoundTrip): the writer lays out `BitConverter.GetBytes` little-endian whatever the host. On a big-endian host the source's GetBytes is big-endian while its base reader reads little-endian, so there the round trip of the source fails.
- Merge (Dataset.DcmDataset.Merge): items are values. In the source the merged dataset holds the other dataset's own item objects, so setting their `Endian` also changes the items the other dataset still holds.
- ChangeTransferSyntax (Dataset.DcmDataset.ChangeTransferSyntax): the re-encoded pixel data element is not written back into the dataset, because `DcmPixelData.UpdateDataset` is left out.
- Encode (JpegCodec.Encode): with a lossy codec and NumberOfFrames 0 the source throws from `GetFrameSize(0)` after setting the lossy flags. The model returns success there.
- BuildRegistry (UidOld.BuildRegistry, UidTrunk.BuildRegistry): a duplicate key keeps the later entry, where `Dictionary.Add` would throw. The literal tables hold no duplicates.
- SwapBytes (EndianIO.SwapBytes): requires a width above 0, because the source divides by the width and throws for 0.
- EncodePixelData (RleFrame.EncodePixelData): encodes each frame with the corrected `EncodeFrame`, the corrected half of the Findings row on Dicom/Codec/DcmRleCodec.cs:240-272. For a 3x3 frame of 8-bit samples the source reads past the frame and throws; the model encodes the frame and adds it.
- Swap (ArrayUtility.Swap, ArrayHelper.Swap, ArrayUtilityTrunk.Swap): requires both indices inside the array, where the source throws IndexOutOfRangeException.
- Matches (Match.Matches): a rule holds a tag already parsed. A rule whose tag text `DcmTag.Parse` rejects makes the source fail with a null reference; the model has no such rule.
- Write (Syslog.SyslogTarget.Write): a port outside 0 to 65535, which makes `IPEndPoint` throw in the source, is not checked.
- Swap (ByteBuffers.ByteBuffer.Swap): requires a width above 0, like EndianIO.SwapBytes, because the source divides by the width.
- Append (ByteBuffers.ByteBuffer.Append): takes the appended bytes themselves, the slice that the source's array, offset and count name. An offset or count outside the array, where the source's stream throws, has no counterpart.
- Clone (Dataset.DcmDataset.Clone): copies the items and the transfer syntax only. `StreamPosition`, `StreamLength` and `UserState` are not modelled.
- constructor (PixelData.DcmPixelData.constructor): the photometric interpretation starts as "" where the source leaves it null. The getters compare it only with "RGB" and "YBR_FULL", where the two behave alike.
- ApplyTo (ModifyTrunk.ApplyTo, ModifyOld.ApplyTo): a user operator whose callback is set leaves the table unchanged in the model. The source hands the live dataset to the callback, which may add, remove or edit any element.
- Apply (ModifyTrunk.Apply, ModifyOld.Apply): reports which callback is called, and the dataset afterwards is the table without the callback's effect. Take a UserOp1 callback that removes (0008,0018), and a UserOp1 rule with mask (0010,0010), over a dataset holding both tags: the source removes (0008,0018), and the model keeps it.
- ApplyToOtherTags (ModifyTrunk.ApplyToOtherTags, ModifyOld.ApplyToOtherTags): holds because a set callback is taken to change nothing. The callback above edits another tag in the source.
- ApplyToLength (ModifyTrunk.ApplyToLength): the bound holds with callbacks that change nothing. A callback that adds elements grows the source's table.
- ModifyTagsOthers (ModifyTrunk.ModifyTagsOthers, ModifyOld.ModifyTagsOthers): a callback run for a listed tag can edit an unlisted one in the source, as the input above shows.
- ModifiedLeavesUnmatched (ModifyTrunk.ModifiedLeavesUnmatched, ModifyOld.ModifiedLeavesUnmatched): "whatever the rule" covers user operators only because their callbacks are taken to change nothing; with the input above (0008,0018) is unmatched, and the source removes it.
- RanAllLeavesUnmatched (ModifyTrunk.RanAllLeavesUnmatched): for the same reason, a tag that no mask matches can still be edited by a set callback in the source.
- ModifyAsWritten (ModifyTrunk.ModifyAsWritten): the live walk runs with callbacks that change nothing. In the source a callback that adds a matching tag past the index moves the walk on, and one that keeps adding can keep the walk from ending; the model's walk always ends.
- Modify (ModifyTrunk.Modify, ModifyOld.Modify): the callbacks are taken to change nothing, as for `Apply`.
- RunAll (ModifyTrunk.RunAll): the callbacks are taken to change nothing, as for `Apply`.
- StartsWithImpliesContains (Match.StartsWithImpliesContains): `Text.StartsWith`, `Text.EndsWith` and `Text.Contains` compare character by character. The source's one-argument `StartsWith` and `EndsWith` compare by the current culture, which ignores characters such as the soft hyphen U+00AD, while `Contains` compares ordinally. So "abc" starts with "­a" in the source but does not contain it, and the lemma holds of ordinal comparison only.
- Matches (Match.Matches): StartsWith and EndsWith rules compare ordinally where the source compares by culture, as above.
- EditedValue (ModifyTrunk.EditedValue): `Chomp` tests the prefix ordinally where the source's `StartsWith` compares by culture. Value "abc" with output "­a" is chomped to "c" by the source and left alone by the model.
- DecodedPhotometric (JpegCodec.DecodedPhotometric): the "YBR_" prefix test is ordinal where the codec's `StartsWith` compares by culture; they differ only for interpretations holding characters the culture ignores.
- TruncateParts (ModifyTrunk.TruncateParts): strings are sequences of Unicode scalar values, so a part is measured and cut by scalar values. The source's `Length` and `Substring(0, n)` count UTF-16 code units. Take the part "\U0001F600" (one character outside the Basic Multilingual Plane) and Truncate "1": the source stores a lone high surrogate, and the model keeps the whole character. A lone surrogate is not a value of the model's strings. The two agree on text inside the Basic Multilingual Plane.
- TruncatedValue (ModifyTrunk.TruncatedValue): cuts each part by scalar values where the source counts UTF-16 code units, as for `TruncateParts`.
- TruncateValue (ModifyTrunk.TruncateValue): computes the scalar-value cut of `TruncatedValue`, not the source's UTF-16 cut.

## Findings

| source | as written | input that shows it | evidently intended | confidence | as-written member | corrected member |
|---|---|---|---|---|---|---|
| Dicom/Codec/DcmRleCodec.cs:321-325 | the PackBits header byte -128 (0x80) is decoded as a replicate run of 129 copies of the next byte | the segment 80 00 41 decodes to 129 zero bytes instead of the one byte 41 | -128 is a no-op header that is skipped (DICOM PS3.5 section G.3.1) | not executed | RleCodec.NoOpHeaderCounterexample | RleCodec.Step |
| Dicom/Codec/DcmRleCodec.cs:240-272 | the segment loop runs to the pixel count rounded up to even, so for an odd pixel count it reads one byte past the end of the last plane of the frame | any frame with an odd number of pixels, such as one pixel of one byte | only the frame's own bytes are read, and the segment is padded afterwards | not executed | RleFrame.OddPixelCountOverRead | RleFrame.FrameReadsInBounds |
| trunk/Dicom/Data/DcmModify.cs:107-113 | the rule walks the dataset by index while Remove deletes from it, so the element after a removed one is skipped | a Remove rule matching every tag, on (0010,0010) and (0010,0020): the second element stays | every matching element is removed | not executed | ModifyTrunk.LazyRemoveSkips | ModifyTrunk.ModifiedRemove |
| Dicom/Data/DcmModify.cs:178-183 | AddOrReplace on a tag that already holds an element leaves its value unchanged | (0010,0010) holding "X" and a rule with output "Y": "X" stays | the element is set to the rule's output, as in the trunk tree | not executed | ModifyOld.AsWrittenDoesNotReplace | ModifyOld.AddOrReplaceSets |
| trunk/Dicom/Data/DcmPixelData.cs:339-350 | a negative sample is decoded by clearing the sign bit and negating the rest | the 8-bit stored value 0xFF with HighBit 7 reads -127 | two's complement, which gives -1 | not executed | PixelFrames.SignedSampleAsWrittenMisreads | PixelFrames.SignedSampleRoundTrip |
| trunk/Dicom/Data/DcmPixelData.cs:582-587 | CreatePixelDataItem makes OW for 8-bit native data and OB for wider data | one 8-bit frame added to a new native item reads back with its byte pairs exchanged | OB for 8-bit data, OW otherwise | not executed | PixelData.AsWrittenEightBitSwapped | PixelData.NativeReadBack |
| trunk/Dicom/IO/DicomStreamReader.cs:505-521 | a short item asks for `_remain - _len` bytes, which is negative and wraps when cast to `uint` | 2 bytes left of a 10-byte item asks for 4294967288 bytes | the shortfall `_len - _remain` | not executed | StreamReader.ShortItemNeedAsWrittenWraps | StreamReader.ShortItemNeed |
| trunk/Dicom/IO/DicomStreamReader.cs:245 | the end of a sequence is checked as `Position - _offset >= _endpos`, while `_endpos` is an absolute position, `Position + _offset` | a nested reader at an offset above 0 standing exactly at the end of its sequence does not see the end | `Position + _offset >= _endpos` | not executed | StreamReader.ReachedEndAsWrittenMisses | StreamReader.ReachedEndAgrees |
| trunk/DicomPrintScp/DicomPrint.cs:617-648 | "STANDARD\ROW,n" and "STANDARD\COL,n" fall through to the ROW/COL reading and succeed | "STANDARD\ROW,2" lays out 2 image boxes and returns true | a STANDARD format is a grid "C,R" only, and anything else is rejected | not executed | Print.StandardRowAsWritten | Print.CorrectionOnlyRejects |
| trunk/DicomPrintScp/DicomPrint.cs:251-256 | a film box UID is the session UID with the number of film boxes plus one, so a UID is reused after a delete | create two film boxes and delete the first: the next one gets the UID of the box that is left | UIDs that are unique within the session | not executed | Print.FilmBoxUidReusedAsWritten | Print.FilmSession.CreateFilmBox |
| Dicom/Network/DcmAssociateProfile.cs:51-53 | `matchImplementation && a.Contains("*") \|\| a.Contains("?")` binds as `(m && star) \|\| question`, so a '?' counts even when implementations are not matched | the remote implementation UID "1.2?" weighs 1 with `matchImplementation` false | `m && (star \|\| question)` | not executed | Profiles.WeightAsWrittenCountsQuestionMark | Profiles.Weight |
| Dicom/Data/DcmVR.cs:182 | the second character is `(char)vr`, all 16 bits of the word, not its low byte | the word 0x4145 of AE looks up as UN | `(char)(vr & 0xFF)` | not executed | VRs.LookupWordCounterexample | VRs.LookupWordInvertsHash |
| trunk/Dicom/IO/ByteBuffer.cs:164-166 | Chop drops the file segment before it opens the stream, so a buffer whose bytes are still in the segment loses them | a buffer over the segment 1 2 3 4 chopped by 1 is left empty | the stream is opened from the segment first, which leaves 2 3 4 | not executed | ByteBuffers.ChopOfUnloadedSegment | ByteBuffers.ByteBuffer.ChopLoaded |
