/** The resumable dataset parser of trunk/Dicom/IO/DicomStreamReader.cs.
    It reads element headers (DICOM PS3.5 sections 7.1.2 and 7.1.3) field
    by field from a stream that may still be arriving, keeps the fields of
    an unfinished element between calls, and returns NeedMoreData with the
    number of bytes it wants when the stream runs short. Sequences and
    encapsulated fragments (section 7.5 and annex A.4) are built as they
    arrive; a defined-length sequence item is read by a nested reader.

    The reader fills datasets that are shared objects: a sequence's item
    dataset is both an entry of the sequence and the target of a nested
    reader or of the reader's own dataset stack. The model keeps every
    dataset, sequence, fragment sequence and element in one arena of nodes
    addressed by index, so the sharing is explicit. */
module StreamReader {
  import opened Ints
  import opened Wrappers
  import EndianIO
  import VRs
  import TS = TransferSyntaxes
  import D = Dataset

  const UndefinedLength: uint32 := 0xFFFF_FFFF

  const ItemTag: D.Tag := D.Tag(0xFFFE, 0xE000)
  const ItemDelimitationTag: D.Tag := D.Tag(0xFFFE, 0xE00D)
  const SequenceDelimitationTag: D.Tag := D.Tag(0xFFFE, 0xE0DD)

  /** The three tags that carry no VR: item, item delimiter, sequence delimiter. */
  predicate IsDelimiting(t: D.Tag) {
    t == ItemTag || t == ItemDelimitationTag || t == SequenceDelimitationTag
  }

  /** `DcmTag.IsPrivate`: an odd group. */
  predicate IsPrivate(t: D.Tag) {
    t.group % 2 == 1
  }

  /** `tag >= stopAtTag`, tags ordered by card; no stop tag never stops. */
  predicate AtOrAfter(t: D.Tag, stop: Option<D.Tag>) {
    stop.Some? && !D.Less(t, stop.value)
  }

  /** `DicomReadStatus`. */
  datatype ReadStatus = Success | UnknownError | NeedMoreData | SuccessEndRead

  /** The `DicomReadOptions` flags the parser consults. */
  datatype ReadOptions = ReadOptions(
    fileMetaInfoOnly: bool,
    forcePrivateCreatorToLO: bool,
    allowSeekingForContext: bool,
    useDictionaryForExplicitUN: bool,
    keepGroupLengths: bool)

  // ------------------------------------------------------------- bytes

  /** Two bytes as a 16-bit value, most significant first. */
  function Word(hi: uint8, lo: uint8): uint16
  {
    hi * 0x100 + lo
  }

  /** A word gives back its two bytes. */
  lemma WordBytes(hi: uint8, lo: uint8)
    ensures Word(hi, lo) / 0x100 == hi && Word(hi, lo) % 0x100 == lo
  {
    EndianIO.DivModUnique(Word(hi, lo), 0x100, hi, lo);
  }

  /** `ReadUInt16` at index `i` in the syntax's byte order. */
  function UInt16At(s: seq<uint8>, i: nat, e: EndianIO.Endian): (w: uint16)
    requires i + 2 <= |s|
  {
    if e.isBigEndian then Word(s[i], s[i + 1]) else Word(s[i + 1], s[i])
  }

  /** `ReadUInt32` at index `i` in the syntax's byte order. */
  function UInt32At(s: seq<uint8>, i: nat, e: EndianIO.Endian): uint32
    requires i + 4 <= |s|
  {
    var a, b := UInt16At(s, i, e), UInt16At(s, i + 2, e);
    if e.isBigEndian then a * 0x1_0000 + b else b * 0x1_0000 + a
  }

  /** A 32-bit value is its two 16-bit halves, the more significant one
      first in big endian and last in little endian. */
  lemma UInt32Halves(s: seq<uint8>, i: nat, e: EndianIO.Endian)
    requires i + 4 <= |s|
    ensures e.isBigEndian ==>
      UInt32At(s, i, e) / 0x1_0000 == UInt16At(s, i, e) && UInt32At(s, i, e) % 0x1_0000 == UInt16At(s, i + 2, e)
    ensures !e.isBigEndian ==>
      UInt32At(s, i, e) / 0x1_0000 == UInt16At(s, i + 2, e) && UInt32At(s, i, e) % 0x1_0000 == UInt16At(s, i, e)
  {
    var a, b := UInt16At(s, i, e), UInt16At(s, i + 2, e);
    if e.isBigEndian {
      EndianIO.DivModUnique(UInt32At(s, i, e), 0x1_0000, a, b);
    } else {
      EndianIO.DivModUnique(UInt32At(s, i, e), 0x1_0000, b, a);
    }
  }

  /** A tag: the group word, then the element word. */
  function TagAt(s: seq<uint8>, i: nat, e: EndianIO.Endian): (t: D.Tag)
    requires i + 4 <= |s|
    ensures t.group == UInt16At(s, i, e) && t.element == UInt16At(s, i + 2, e)
  {
    D.Tag(UInt16At(s, i, e), UInt16At(s, i + 2, e))
  }

  /** `ReadChars` with ASCII: bytes above 0x7F decode as '?'. */
  function AsciiChar(b: uint8): (c: char)
    ensures b < 0x80 ==> c as int == b
  {
    if b < 0x80 then b as char else '?'
  }

  /** The explicit VR field: two characters looked up as a VR code. */
  function VRAt(s: seq<uint8>, i: nat): (v: VRs.DcmVR)
    requires i + 2 <= |s|
  {
    VRs.Lookup([AsciiChar(s[i]), AsciiChar(s[i + 1])])
  }

  // ----------------------------------------------------- header layout

  /** The width of the length field. Implicit VR: always 4. Explicit VR:
      4 for the item and delimiter tags, 2 for the VRs with a 16-bit
      length, and otherwise 2 reserved bytes followed by 4. */
  function LengthWidth(explicit: bool, t: D.Tag, vr: VRs.DcmVR): (w: nat)
    ensures w == 2 || w == 4 || w == 6
    ensures !explicit || IsDelimiting(t) ==> w == 4
    ensures explicit && !IsDelimiting(t) ==> (w == 2 <==> vr.is16BitLength)
  {
    if !explicit || IsDelimiting(t) then 4
    else if vr.is16BitLength then 2
    else 6
  }

  /** The length value in a field of that width. */
  function LengthAt(s: seq<uint8>, i: nat, w: nat, e: EndianIO.Endian): (n: uint32)
    requires w == 2 || w == 4 || w == 6
    requires i + w <= |s|
    ensures w == 2 ==> n == UInt16At(s, i, e)
    ensures w == 4 ==> n == UInt32At(s, i, e)
    ensures w == 6 ==> n == UInt32At(s, i + 2, e)
  {
    if w == 2 then UInt16At(s, i, e)
    else if w == 4 then UInt32At(s, i, e)
    else UInt32At(s, i + 2, e)
  }

  /** The whole header before the value: tag, VR field (explicit VR, not
      for the item and delimiter tags) and length field. */
  function HeaderSize(explicit: bool, t: D.Tag, vr: VRs.DcmVR): (n: nat)
  {
    4 + (if explicit && !IsDelimiting(t) then 2 else 0) + LengthWidth(explicit, t, vr)
  }

  /** The header sizes of DICOM PS3.5 sections 7.1.2 and 7.1.3: 8 bytes in
      implicit VR and for items and delimiters; in explicit VR, 12 bytes
      for exactly the VRs with a 4-byte length (OB, OF, OW, SQ, UN, UT)
      and 8 for the rest. */
  lemma HeaderSizes(t: D.Tag)
    ensures forall vr :: HeaderSize(false, t, vr) == 8
    ensures IsDelimiting(t) ==> forall vr :: HeaderSize(true, t, vr) == 8
    ensures !IsDelimiting(t) ==> forall i :: 0 <= i < |VRs.Entries| ==>
      (HeaderSize(true, t, VRs.Entries[i]) == 12 <==> VRs.Entries[i].vr in VRs.LongLengthCodes)
    ensures !IsDelimiting(t) ==> forall i :: 0 <= i < |VRs.Entries| ==>
      HeaderSize(true, t, VRs.Entries[i]) == 8 || HeaderSize(true, t, VRs.Entries[i]) == 12
  {
    VRs.LengthFieldWidths();
  }

  /** The VR of an implicit-VR element before the UN rules: UL for a group
      length, UN for a private creator when ForcePrivateCreatorToLO is set,
      otherwise the dictionary's default VR. */
  function ImplicitVR(t: D.Tag, options: ReadOptions, dictionary: D.Tag -> VRs.DcmVR): (v: VRs.DcmVR)
    ensures t.element == 0 ==> v == VRs.UL
    ensures t.element != 0 && !(options.forcePrivateCreatorToLO && IsPrivate(t) && t.element <= 0xFF) ==> v == dictionary(t)
  {
    if t.element == 0 then VRs.UL
    else if options.forcePrivateCreatorToLO && IsPrivate(t) && t.element <= 0xFF then VRs.UN
    else dictionary(t)
  }

  /** What settling a UN comes to: a VR, a shortage of bytes for the
      look-ahead, or a read past the end of the stream (which the source
      catches as `EndOfStreamException`). */
  datatype VrOutcome = Resolved(vr: VRs.DcmVR) | Short(width: nat) | PastEnd

  /** The look-ahead for a private UN element (AllowSeekingForContext):
      an undefined length, or a defined non-zero length followed by an item
      or sequence delimiter tag, means a sequence. `remain` is not reduced
      by what it peeks, so its checks can pass while the bytes after the
      reserved field are missing; the check before the item tag repeats
      the earlier one and always passes. */
  function LookAhead(explicit: bool, s: seq<uint8>, p: nat, remain: int, e: EndianIO.Endian): (o: VrOutcome)
    requires 0 <= remain <= |s| - p
    ensures o.Short? ==> remain < o.width && (o.width == 2 || o.width == 4)
    ensures o.Resolved? ==> o.vr == VRs.SQ || o.vr == VRs.UN
    ensures o.PastEnd? ==> (if explicit then p + 2 else p) + 8 > |s|
  {
    if explicit && remain < 2 then Short(2)
    else if remain < 4 then Short(4)
    else
      var q := if explicit then p + 2 else p;
      if q + 4 > |s| then PastEnd
      else
        var l := UInt32At(s, q, e);
        if l == UndefinedLength then Resolved(VRs.SQ)
        else if l == 0 then Resolved(VRs.UN)
        else if q + 8 > |s| then PastEnd
        else
          var next := TagAt(s, q + 4, e);
          Resolved(if next == ItemTag || next == SequenceDelimitationTag then VRs.SQ else VRs.UN)
  }

  /** With the bytes it reads present, the look-ahead finds a sequence
      exactly when the length after the VR is undefined, or is defined,
      non-zero and followed by an item or sequence delimiter tag. */
  lemma LookAheadFindsSequences(explicit: bool, s: seq<uint8>, p: nat, remain: int, e: EndianIO.Endian)
    requires 4 <= remain <= |s| - p
    requires (if explicit then p + 2 else p) + 8 <= |s|
    ensures var q := if explicit then p + 2 else p;
      var l := UInt32At(s, q, e);
      var next := TagAt(s, q + 4, e);
      LookAhead(explicit, s, p, remain, e).Resolved? &&
      (LookAhead(explicit, s, p, remain, e).vr == VRs.SQ <==>
        l == UndefinedLength || (l != 0 && (next == ItemTag || next == SequenceDelimitationTag)))
  {
  }

  /** The rules for a UN: UL for a group length; a private creator stays
      UN; another private element is looked ahead at when the stream can
      seek and AllowSeekingForContext is set; a standard element takes the
      dictionary's VR in implicit VR or with UseDictionaryForExplicitUN. */
  function SettleVR(first: VRs.DcmVR, t: D.Tag, explicit: bool, options: ReadOptions, canSeek: bool,
                    dictionary: D.Tag -> VRs.DcmVR, s: seq<uint8>, p: nat, remain: int,
                    e: EndianIO.Endian): (o: VrOutcome)
    requires 0 <= remain <= |s| - p
    ensures first != VRs.UN ==> o == Resolved(first)
    ensures first == VRs.UN && t.element == 0 ==> o == Resolved(VRs.UL)
    ensures first == VRs.UN && t.element != 0 && !IsPrivate(t) ==>
      o == Resolved(if !explicit || options.useDictionaryForExplicitUN then dictionary(t) else VRs.UN)
    ensures !o.Resolved? ==>
      first == VRs.UN && IsPrivate(t) && t.element > 0xFF && canSeek && options.allowSeekingForContext
    ensures o.Short? ==> remain < o.width && (o.width == 2 || o.width == 4)
  {
    if first != VRs.UN then Resolved(first)
    else if t.element == 0 then Resolved(VRs.UL)
    else if IsPrivate(t) then
      if t.element <= 0xFF || !(canSeek && options.allowSeekingForContext) then Resolved(VRs.UN)
      else LookAhead(explicit, s, p, remain, e)
    else if !explicit || options.useDictionaryForExplicitUN then Resolved(dictionary(t))
    else Resolved(VRs.UN)
  }

  // --------------------------------------------------------- findings

  /** The bytes a short item reports it needs, as written:
      `NeedMoreData(_remain - _len)`, cast to `uint`. */
  function ShortItemNeedAsWritten(remain: int, len: uint32): (n: uint32)
  {
    ToUInt32(remain - len)
  }

  /** As written, a short item reports 2^32 minus its shortfall: with 2
      bytes left of a 10-byte item it asks for 4294967288 bytes. */
  lemma ShortItemNeedAsWrittenWraps(remain: int, len: uint32)
    requires 0 <= remain < len
    ensures ShortItemNeedAsWritten(remain, len) == TWO_32 - (len - remain)
    ensures len - remain != 0x8000_0000 ==> ShortItemNeedAsWritten(remain, len) + remain != len
    ensures ShortItemNeedAsWritten(2, 10) == 4294967288
  {
    var n := ShortItemNeedAsWritten(remain, len);
    EndianIO.DivModUnique(n - (remain - len), TWO_32, (n - (remain - len)) / TWO_32, 0);
    EndianIO.DivModUnique(remain - len + TWO_32, TWO_32, 0, remain - len + TWO_32);
    var m := ShortItemNeedAsWritten(2, 10);
    EndianIO.DivModUnique(m + 8, TWO_32, (m + 8) / TWO_32, 0);
  }

  /** The bytes a short item needs, as the value path does
      (`NeedMoreData(_len - _remain)`): the shortfall. */
  function ShortItemNeed(remain: int, len: uint32): (n: uint32)
    requires 0 <= remain < len
    ensures 0 < n && remain + n == len
  {
    len - remain
  }

  /** Whether the stream has reached an absolute stream position `end`,
      as written at lines 245 and 572: the offset is subtracted. */
  predicate ReachedEndAsWritten(position: int, offset: int, end: int) {
    position - offset >= end
  }

  /** A nested reader (offset > 0, positions absolute as `_pos` computes
      them) standing exactly at the end of a sequence does not see it. */
  lemma ReachedEndAsWrittenMisses(position: nat, offset: int, end: int)
    requires offset > 0 && position + offset == end
    ensures !ReachedEndAsWritten(position, offset, end)
    ensures ReachedEnd(position, offset, end)
  {
  }

  /** The same test with the absolute position `_pos` uses
      (`_stream.Position + _offset`). */
  predicate ReachedEnd(position: int, offset: int, end: int) {
    position + offset >= end
  }

  /** The corrected test agrees with the as-written one exactly when the
      reader is not nested, and for a nested reader fires as soon as the
      absolute position reaches the end. */
  lemma ReachedEndAgrees(position: nat, offset: int, end: int)
    ensures offset == 0 ==> (ReachedEnd(position, offset, end) <==> ReachedEndAsWritten(position, offset, end))
    ensures ReachedEnd(position, offset, end) <==> position + offset >= end
  {
  }

  // ------------------------------------------------------------ nodes

  /** The objects the reader builds: datasets (keyed by tag, as the sorted
      list keyed by card), item sequences holding their item datasets in
      order, fragment sequences, and elements with their raw value. */
  datatype Node =
    | DatasetNode(position: int, length: uint32, syntax: TS.DcmTS, items: map<D.Tag, nat>)
    | SequenceNode(tag: D.Tag, position: int, length: uint32, endian: EndianIO.Endian, datasets: seq<nat>)
    | FragmentNode(tag: D.Tag, vr: VRs.DcmVR, position: int, endian: EndianIO.Endian,
                   offsetTable: Option<seq<uint8>>, fragments: seq<seq<uint8>>)
    | ElementNode(element: D.Item, position: int)

  /** `item.Endian = e` on a node that can be a dataset entry. */
  function InEndian(n: Node, e: EndianIO.Endian): (r: Node)
    ensures r.DatasetNode? == n.DatasetNode? && r.SequenceNode? == n.SequenceNode?
    ensures r.FragmentNode? == n.FragmentNode? && r.ElementNode? == n.ElementNode?
  {
    match n
    case ElementNode(item, p) => ElementNode(D.WithEndian(item, e), p)
    case SequenceNode(t, p, l, _, ds) => SequenceNode(t, p, l, e, ds)
    case FragmentNode(t, vr, p, _, o, f) => FragmentNode(t, vr, p, e, o, f)
    case DatasetNode(_, _, _, _) => n
  }

  predicate SameKind(a: Node, b: Node) {
    a.DatasetNode? == b.DatasetNode? && a.SequenceNode? == b.SequenceNode? &&
    a.FragmentNode? == b.FragmentNode? && a.ElementNode? == b.ElementNode?
  }

  /** The arena only grows, and no object changes kind. */
  predicate Grows(before: seq<Node>, after: seq<Node>) {
    |before| <= |after| && forall i :: 0 <= i < |before| ==> SameKind(before[i], after[i])
  }

  lemma GrowsTrans(a: seq<Node>, b: seq<Node>, c: seq<Node>)
    requires Grows(a, b) && Grows(b, c)
    ensures Grows(a, c)
  {
    forall i | 0 <= i < |a| ensures SameKind(a[i], c[i]) {
      assert SameKind(b[i], c[i]);
    }
  }

  /** `DcmDataset.AddItem` on the dataset `ds`: the entry for the tag is
      replaced (never duplicated) and the item takes the dataset's byte
      order; nothing else changes. */
  function AddItem(nodes: seq<Node>, ds: nat, t: D.Tag, child: nat): (r: seq<Node>)
    requires ds < |nodes| && nodes[ds].DatasetNode?
    requires child < |nodes| && !nodes[child].DatasetNode?
    ensures Grows(nodes, r) && |r| == |nodes|
    ensures r[ds].DatasetNode? && r[ds].items.Keys == nodes[ds].items.Keys + {t} && r[ds].items[t] == child
    ensures forall u :: u in nodes[ds].items && u != t ==> r[ds].items[u] == nodes[ds].items[u]
    ensures r[child] == InEndian(nodes[child], nodes[ds].syntax.endian)
    ensures forall i :: 0 <= i < |nodes| && i != ds && i != child ==> r[i] == nodes[i]
  {
    var dataset := nodes[ds];
    var moved := nodes[child := InEndian(nodes[child], dataset.syntax.endian)];
    moved[ds := dataset.(items := dataset.items[t := child])]
  }

  /** The reader's pending element header. */
  datatype Header = Header(tag: Option<D.Tag>, vr: Option<VRs.DcmVR>, len: uint32, pos: int)

  /** The reader's counters and the stream position. */
  datatype Counters = Counters(position: nat, remain: int, read: int, bytes: int, need: uint32)

  /** `n` header or value bytes consumed: the stream moves on, `_remain`
      goes down and `_read` and `_bytes` go up by the same amount. */
  function Advance(c: Counters, n: nat): (r: Counters)
    ensures r.read + r.remain == c.read + c.remain
  {
    Counters(c.position + n, c.remain - n, c.read + n, c.bytes + n, c.need)
  }

  /** The reader's tree position: the arena, the dataset and sequence
      stacks (top last) and the open fragment sequence. */
  datatype Tree = Tree(nodes: seq<Node>, sds: seq<nat>, sqs: seq<nat>, fragment: Option<nat>)

  /** Every index the tree holds names an object of the right kind. */
  ghost predicate TreeOk(t: Tree, dataset: nat) {
    && dataset < |t.nodes| && t.nodes[dataset].DatasetNode?
    && (forall i :: 0 <= i < |t.sds| ==> t.sds[i] < |t.nodes| && t.nodes[t.sds[i]].DatasetNode?)
    && (forall i :: 0 <= i < |t.sqs| ==> t.sqs[i] < |t.nodes| && t.nodes[t.sqs[i]].SequenceNode?)
    && (t.fragment.Some? ==> t.fragment.value < |t.nodes| && t.nodes[t.fragment.value].FragmentNode?)
  }

  /** `_remain` never exceeds what is left of a stream of `size` bytes; a
      header field is pending only after the ones before it. */
  ghost predicate CursorOk(c: Counters, h: Header, size: int) {
    && 0 <= c.remain <= size - c.position
    && (h.tag.Some? ==> c.position >= 4)
    && (h.tag.None? ==> h.vr.None?)
    && (h.vr.None? ==> h.len == UndefinedLength)
  }

  /** The arena may grow under a well-formed tree. */
  lemma TreeOkGrows(t: Tree, nodes: seq<Node>, dataset: nat)
    requires TreeOk(t, dataset) && Grows(t.nodes, nodes)
    ensures TreeOk(t.(nodes := nodes), dataset)
  {
    assert SameKind(t.nodes[dataset], nodes[dataset]);
    forall i | 0 <= i < |t.sds| ensures nodes[t.sds[i]].DatasetNode? {
      assert SameKind(t.nodes[t.sds[i]], nodes[t.sds[i]]);
    }
    forall i | 0 <= i < |t.sqs| ensures nodes[t.sqs[i]].SequenceNode? {
      assert SameKind(t.nodes[t.sqs[i]], nodes[t.sqs[i]]);
    }
    if t.fragment.Some? {
      assert SameKind(t.nodes[t.fragment.value], nodes[t.fragment.value]);
    }
  }

  /** Where a new item goes: the top item dataset when the reader is
      inside an item of the top sequence, else the reader's dataset. */
  function Target(t: Tree, dataset: nat): (id: nat)
    ensures id == dataset || id in t.sds
  {
    if |t.sds| > 0 && |t.sds| == |t.sqs| then t.sds[|t.sds| - 1] else dataset
  }

  /** A well-formed tree's target is a dataset. */
  lemma TargetIsDataset(t: Tree, dataset: nat)
    requires TreeOk(t, dataset)
    ensures Target(t, dataset) < |t.nodes| && t.nodes[Target(t, dataset)].DatasetNode?
  {
  }

  /** The reader. Its fields are grouped as in the source: the stream and
      its syntax, the objects being filled with the dataset and sequence
      stacks (`tree`), the header fields of the element being parsed
      (`header`: `_tag`, `_vr`, `_len`, `_pos`), and the stream position
      with the counters (`cursor`: `Position`, `_remain`, `_read`,
      `_bytes`, `_need`). */
  class DicomStreamReader {
    /** The stream's contents so far; its `Length` is `|stream|`. */
    var stream: seq<uint8>
    /** `_stream.CanSeek`. */
    const canSeek: bool
    var syntax: TS.DcmTS
    /** `PositionOffset`: where this stream starts in its parent stream. */
    var offset: int
    /** `_dataset`, an index into the arena. */
    var dataset: nat
    var tree: Tree
    var header: Header
    var cursor: Counters

    function Setting(): (seq<uint8>, TS.DcmTS, int, nat) reads this { (stream, syntax, offset, dataset) }

    ghost predicate Valid()
      reads this
    {
      TreeOk(tree, dataset) && CursorOk(cursor, header, |stream|)
    }

    /** `_remain` counted twice, plus one while a header is pending: every
        pass of the read loop that goes on lowers it. */
    function Progress(): int
      reads this
    {
      2 * cursor.remain + (if header.tag.Some? then 1 else 0)
    }

    /** Why a read stopped early: the parsed tag is at or after the stop
        tag, or FileMetaInfoOnly met a group other than 0x0002 and left the
        stream before it. */
    predicate StoppedAt(stop: Option<D.Tag>, options: ReadOptions)
      reads this
    {
      || (header.tag.Some? && AtOrAfter(header.tag.value, stop))
      || (options.fileMetaInfoOnly && header.tag.None? && cursor.position + 2 <= |stream| &&
          UInt16At(stream, cursor.position, syntax.endian) != 0x0002)
    }

    /** The constructor: explicit VR little endian until a dataset is set. */
    constructor (data: seq<uint8>, seekable: bool)
      ensures stream == data && canSeek == seekable
      ensures syntax == TS.ExplicitVRLittleEndian && offset == 0 && dataset == 0
      ensures tree == Tree([], [], [], None)
      ensures header == Header(None, None, UndefinedLength, 0)
      ensures cursor == Counters(0, 0, 0, 0, 0)
    {
      stream, canSeek := data, seekable;
      syntax, offset, dataset := TS.ExplicitVRLittleEndian, 0, 0;
      tree := Tree([], [], [], None);
      header := Header(None, None, UndefinedLength, 0);
      cursor := Counters(0, 0, 0, 0, 0);
    }

    /** The `Dataset` setter: the dataset to fill (within the objects it
        shares) and its transfer syntax. */
    method SetDataset(graph: seq<Node>, ds: nat)
      requires ds < |graph| && graph[ds].DatasetNode?
      requires header.tag.None? && header.vr.None? && header.len == UndefinedLength
      requires tree.sds == [] && tree.sqs == [] && tree.fragment == None
      requires 0 <= cursor.remain <= |stream| - cursor.position
      modifies this
      ensures Valid()
      ensures tree == old(tree).(nodes := graph) && dataset == ds && syntax == graph[ds].syntax
      ensures stream == old(stream) && offset == old(offset)
      ensures header == old(header) && cursor == old(cursor)
    {
      tree := tree.(nodes := graph);
      dataset, syntax := ds, graph[ds].syntax;
    }

    /** More of the stream has arrived. */
    method Receive(more: seq<uint8>)
      requires Valid()
      modifies this
      ensures Valid()
      ensures stream == old(stream) + more
      ensures header == old(header) && cursor == old(cursor) && tree == old(tree)
      ensures syntax == old(syntax) && offset == old(offset) && dataset == old(dataset)
    {
      stream := stream + more;
    }

    /** `BytesEstimated`. */
    function BytesEstimated(): (n: int)
      reads this
      ensures n - cursor.bytes == cursor.need
    {
      cursor.bytes + cursor.need
    }

    /** `NeedMoreData(count)`: records the count as a `uint`. */
    method NeedMore(count: int) returns (r: ReadStatus)
      modifies this
      ensures r == NeedMoreData
      ensures 0 < count < TWO_32 ==> cursor.need == count
      ensures header == old(header) && tree == old(tree) && Setting() == old(Setting())
      ensures cursor == old(cursor).(need := ToUInt32(count))
    {
      var n := ToUInt32(count);
      if 0 < count < TWO_32 {
        EndianIO.DivModUnique(n - count, TWO_32, (n - count) / TWO_32, 0);
      }
      cursor := cursor.(need := n);
      r := NeedMoreData;
    }

    /** `ParseTag`: a pending tag is kept; otherwise four bytes are read
        when four remain, and NeedMoreData(4) is returned when they do not.
        With FileMetaInfoOnly a group other than 0x0002 stops the read and
        leaves the stream before the tag. */
    method ParseTag(stop: Option<D.Tag>, options: ReadOptions) returns (r: ReadStatus)
      requires Valid()
      modifies this
      ensures Valid() && tree == old(tree) && Setting() == old(Setting())
      ensures cursor.remain <= old(cursor).remain && cursor.read + cursor.remain == old(cursor.read + cursor.remain)
      ensures r == ReadStatus.Success ==>
        header.tag.Some? && (old(header).tag.None? ==> cursor.remain < old(cursor).remain)
      ensures r == SuccessEndRead ==> StoppedAt(stop, options)
      ensures r == NeedMoreData ==> cursor.remain < cursor.need
      ensures old(header).tag.Some? ==>
        && header == old(header) && cursor == old(cursor)
        && r == (if AtOrAfter(header.tag.value, stop) then SuccessEndRead else ReadStatus.Success)
      ensures old(header).tag.None? && old(cursor).remain < 4 ==>
        r == NeedMoreData && header == old(header) && cursor == old(cursor).(need := 4)
      ensures old(header).tag.None? && old(cursor).remain >= 4 ==>
        var p := old(cursor).position;
        var g := UInt16At(stream, p, syntax.endian);
        if options.fileMetaInfoOnly && g != 0x0002 then
          r == SuccessEndRead && header == old(header).(pos := p + offset) && cursor == old(cursor) &&
          StoppedAt(stop, options)
        else
          var t := TagAt(stream, p, syntax.endian);
          && header == Header(Some(t), if IsDelimiting(t) then Some(VRs.NONE) else None, UndefinedLength, p + offset)
          && cursor == Advance(old(cursor), 4)
          && r == (if AtOrAfter(t, stop) then SuccessEndRead else ReadStatus.Success)
    {
      if header.tag.None? {
        if cursor.remain < 4 {
          r := NeedMore(4);
          return;
        }
        var p := cursor.position;
        var g := UInt16At(stream, p, syntax.endian);
        if options.fileMetaInfoOnly && g != 0x0002 {
          header := header.(pos := p + offset);
          return SuccessEndRead;
        }
        var t := D.Tag(g, UInt16At(stream, p + 2, syntax.endian));
        header := Header(Some(t), if IsDelimiting(t) then Some(VRs.NONE) else None, UndefinedLength, p + offset);
        cursor := Advance(cursor, 4);
      }
      r := if AtOrAfter(header.tag.value, stop) then SuccessEndRead else ReadStatus.Success;
    }

    /** `ParseVR`: a pending VR is kept. Explicit VR reads two characters
        (NeedMoreData(2) when they are missing); implicit VR takes the VR
        from the tag. A UN is then settled. When the look-ahead runs short,
        the VR is dropped but the explicit VR characters stay consumed, as
        in the source. */
    method ParseVR(options: ReadOptions, dictionary: D.Tag -> VRs.DcmVR) returns (r: ReadStatus)
      requires Valid() && header.tag.Some?
      modifies this
      ensures Valid() && tree == old(tree) && Setting() == old(Setting())
      ensures cursor.remain <= old(cursor).remain && cursor.read + cursor.remain == old(cursor.read + cursor.remain)
      ensures header.tag == old(header).tag && header.len == old(header).len && header.pos == old(header).pos
      ensures old(header).vr.Some? ==> r == ReadStatus.Success && header == old(header) && cursor == old(cursor)
      ensures old(header).vr.None? && syntax.isExplicitVR && old(cursor).remain < 2 ==>
        r == NeedMoreData && header == old(header) && cursor == old(cursor).(need := 2)
      ensures old(header).vr.None? && (!syntax.isExplicitVR || old(cursor).remain >= 2) ==>
        var explicit := syntax.isExplicitVR;
        var first := if explicit then VRAt(stream, old(cursor).position)
                     else ImplicitVR(header.tag.value, options, dictionary);
        var after := Advance(old(cursor), if explicit then 2 else 0);
        var o := SettleVR(first, header.tag.value, explicit, options, canSeek, dictionary, stream,
                          after.position, after.remain, syntax.endian);
        && (o.Resolved? ==> r == ReadStatus.Success && header.vr == Some(o.vr) && cursor == after)
        && (o.Short? ==> r == NeedMoreData && header.vr.None? && cursor == after.(need := o.width))
        && (o.PastEnd? ==> r == UnknownError && header.vr == Some(first) && cursor == after)
      ensures r == ReadStatus.Success ==> header.vr.Some?
      ensures r == NeedMoreData ==> cursor.remain < cursor.need
    {
      if header.vr.Some? {
        return ReadStatus.Success;
      }
      var first: VRs.DcmVR;
      if syntax.isExplicitVR {
        if cursor.remain < 2 {
          r := NeedMore(2);
          return;
        }
        first := VRAt(stream, cursor.position);
        cursor := Advance(cursor, 2);
      } else {
        first := ImplicitVR(header.tag.value, options, dictionary);
      }
      var o := SettleVR(first, header.tag.value, syntax.isExplicitVR, options, canSeek, dictionary, stream,
                        cursor.position, cursor.remain, syntax.endian);
      match o {
        case Resolved(v) =>
          header := header.(vr := Some(v));
          r := ReadStatus.Success;
        case Short(w) =>
          r := NeedMore(w);
        case PastEnd =>
          header := header.(vr := Some(first));
          r := UnknownError;
      }
    }

    /** `ParseLength`: a pending length is kept; otherwise the length
        field of `LengthWidth` bytes is read, or NeedMoreData with that
        width is returned. A defined length of anything but a sequence or
        an item outside a fragment sequence adds to the estimate. */
    method ParseLength() returns (r: ReadStatus)
      requires Valid() && header.tag.Some? && header.vr.Some?
      modifies this
      ensures Valid() && tree == old(tree) && Setting() == old(Setting())
      ensures cursor.remain <= old(cursor).remain && cursor.read + cursor.remain == old(cursor.read + cursor.remain)
      ensures header.tag == old(header).tag && header.vr == old(header).vr && header.pos == old(header).pos
      ensures old(header).len != UndefinedLength ==>
        r == ReadStatus.Success && header == old(header) && cursor == old(cursor)
      ensures old(header).len == UndefinedLength ==>
        var w := LengthWidth(syntax.isExplicitVR, header.tag.value, header.vr.value);
        && (old(cursor).remain < w ==>
              r == NeedMoreData && header == old(header) && cursor == old(cursor).(need := w))
        && (old(cursor).remain >= w ==>
              && r == ReadStatus.Success
              && header.len == LengthAt(stream, old(cursor).position, w, syntax.endian)
              && var after := Advance(old(cursor), w);
                 var counted := header.len != UndefinedLength && header.vr.value != VRs.SQ &&
                                !(header.tag.value == ItemTag && tree.fragment.None?);
                 cursor == after.(bytes := after.bytes + (if counted then header.len as int else 0)))
      ensures r == NeedMoreData ==> cursor.remain < cursor.need
      ensures r == ReadStatus.Success || r == NeedMoreData
    {
      if header.len != UndefinedLength {
        return ReadStatus.Success;
      }
      var w := LengthWidth(syntax.isExplicitVR, header.tag.value, header.vr.value);
      if cursor.remain < w {
        r := NeedMore(w);
        return;
      }
      var n := LengthAt(stream, cursor.position, w, syntax.endian);
      var after := Advance(cursor, w);
      if n != UndefinedLength && header.vr.value != VRs.SQ && !(header.tag.value == ItemTag && tree.fragment.None?) {
        after := after.(bytes := after.bytes + n);
      }
      header, cursor := header.(len := n), after;
      r := ReadStatus.Success;
    }

    /** A new object in the arena. */
    method Allocate(n: Node) returns (id: nat)
      requires Valid()
      modifies this
      ensures Valid()
      ensures tree == old(tree).(nodes := old(tree).nodes + [n]) && id == |old(tree).nodes|
      ensures Grows(old(tree).nodes, tree.nodes)
      ensures header == old(header) && cursor == old(cursor) && Setting() == old(Setting())
    {
      id := |tree.nodes|;
      TreeOkGrows(tree, tree.nodes + [n], dataset);
      tree := tree.(nodes := tree.nodes + [n]);
    }

    /** `InsertDatasetItem`: the item goes into the target dataset unless
        it is a group length and KeepGroupLengths is off. A defined-length
        top item dataset whose end the stream has reached is then closed. */
    method InsertDatasetItem(child: nat, options: ReadOptions)
      requires Valid() && header.tag.Some? && child < |tree.nodes| && !tree.nodes[child].DatasetNode?
      modifies this
      ensures Valid() && header == old(header) && cursor == old(cursor) && Setting() == old(Setting())
      ensures tree.sqs == old(tree).sqs && tree.fragment == old(tree).fragment
      ensures tree.nodes == if header.tag.value.element == 0 && !options.keepGroupLengths then old(tree).nodes
                            else AddItem(old(tree).nodes, Target(old(tree), dataset), header.tag.value, child)
      ensures Grows(old(tree).nodes, tree.nodes)
      ensures tree.sds == if |old(tree).sds| > 0 && |old(tree).sds| == |tree.sqs| &&
                            var top := tree.nodes[Target(old(tree), dataset)];
                            top.length != UndefinedLength && ReachedEnd(cursor.position, offset, top.position + top.length)
                          then old(tree).sds[..|old(tree).sds| - 1] else old(tree).sds
    {
      var target := Target(tree, dataset);
      var nodes := tree.nodes;
      if !(header.tag.value.element == 0 && !options.keepGroupLengths) {
        nodes := AddItem(nodes, target, header.tag.value, child);
      }
      TreeOkGrows(tree, nodes, dataset);
      var sds := tree.sds;
      if |sds| > 0 && |sds| == |tree.sqs| {
        var top := nodes[target];
        if top.length != UndefinedLength && ReachedEnd(cursor.position, offset, top.position + top.length) {
          sds := sds[..|sds| - 1];
        }
      }
      tree := tree.(nodes := nodes, sds := sds);
    }

    /** Lines 239-251: before a new element, a defined-length top sequence
        whose end the stream has reached is closed, with its item dataset
        when that is open. The header after the sequence's own is 8 bytes,
        4 more in explicit VR. */
    method CloseEndedSequence()
      requires Valid()
      modifies this
      ensures Valid() && header == old(header) && cursor == old(cursor) && Setting() == old(Setting())
      ensures tree.nodes == old(tree).nodes && tree.fragment == old(tree).fragment
      ensures var t := old(tree);
        var ended := |t.sqs| > 0 &&
          var sq := t.nodes[t.sqs[|t.sqs| - 1]];
          sq.length != UndefinedLength &&
          ReachedEnd(cursor.position, offset, sq.position + 8 + sq.length + (if syntax.isExplicitVR then 4 else 0));
        && tree.sqs == (if ended then t.sqs[..|t.sqs| - 1] else t.sqs)
        && tree.sds == (if ended && |t.sds| == |t.sqs| then t.sds[..|t.sds| - 1] else t.sds)
    {
      if |tree.sqs| > 0 {
        var sq := tree.nodes[tree.sqs[|tree.sqs| - 1]];
        if sq.length != UndefinedLength {
          var end := sq.position + 8 + sq.length + (if syntax.isExplicitVR then 4 else 0);
          if ReachedEnd(cursor.position, offset, end) {
            var sds := if |tree.sds| == |tree.sqs| then tree.sds[..|tree.sds| - 1] else tree.sds;
            tree := tree.(sds := sds, sqs := tree.sqs[..|tree.sqs| - 1]);
          }
        }
      }
    }

    /** `InsertFragmentItem`: inside a fragment sequence an item holds the
        offset table when there is none yet, and a fragment after that; it
        is taken only when all of it has arrived. The sequence delimiter
        closes the fragment sequence; any other tag is an error. */
    method InsertFragmentItem() returns (r: ReadStatus)
      requires Valid() && header.tag.Some? && tree.fragment.Some?
      modifies this
      ensures Valid() && header == old(header) && Setting() == old(Setting())
      ensures tree.sds == old(tree).sds && tree.sqs == old(tree).sqs && Grows(old(tree).nodes, tree.nodes)
      ensures header.tag.value == ItemTag && old(cursor).remain >= header.len ==>
        var id := old(tree).fragment.value;
        var f := old(tree).nodes[id];
        var p := old(cursor).position;
        var data := stream[p..p + header.len];
        && r == ReadStatus.Success && tree.fragment == old(tree).fragment
        && tree.nodes == old(tree).nodes[id :=
             if f.offsetTable.None? then f.(offsetTable := Some(data)) else f.(fragments := f.fragments + [data])]
        && cursor == old(cursor).(position := p + header.len, remain := old(cursor).remain - header.len,
                                  read := old(cursor).read + header.len)
      ensures header.tag.value == ItemTag && old(cursor).remain < header.len ==>
        r == NeedMoreData && tree == old(tree) &&
        cursor == old(cursor).(need := ShortItemNeed(old(cursor).remain, header.len))
      ensures header.tag.value == SequenceDelimitationTag ==>
        r == ReadStatus.Success && tree == old(tree).(fragment := None) && cursor == old(cursor)
      ensures header.tag.value != ItemTag && header.tag.value != SequenceDelimitationTag ==>
        r == UnknownError && tree == old(tree) && cursor == old(cursor)
      ensures cursor.remain <= old(cursor).remain && cursor.read + cursor.remain == old(cursor.read + cursor.remain)
    {
      if header.tag.value == ItemTag {
        if cursor.remain >= header.len {
          var p, n := cursor.position, header.len;
          var data := stream[p..p + n];
          var id := tree.fragment.value;
          var f := tree.nodes[id];
          var g := if f.offsetTable.None? then f.(offsetTable := Some(data)) else f.(fragments := f.fragments + [data]);
          tree := tree.(nodes := tree.nodes[id := g]);
          cursor := cursor.(position := p + n, remain := cursor.remain - n, read := cursor.read + n);
          r := ReadStatus.Success;
        } else {
          r := NeedMore(ShortItemNeed(cursor.remain, header.len));
        }
      } else if header.tag.value == SequenceDelimitationTag {
        tree := tree.(fragment := None);
        r := ReadStatus.Success;
      } else {
        r := UnknownError;
      }
    }

    /** Lines 523-529: a new item closes the open item dataset of the top
        sequence, if any, and starts a new empty one, appended to the
        sequence's items. Its stream position is after the 8-byte item
        header. */
    method OpenItem() returns (id: nat)
      requires Valid() && header.tag.Some? && |tree.sqs| > 0
      modifies this
      ensures Valid() && header == old(header) && cursor == old(cursor) && Setting() == old(Setting())
      ensures Grows(old(tree).nodes, tree.nodes)
      ensures tree.sqs == old(tree).sqs && tree.fragment == old(tree).fragment
      ensures id == |old(tree).nodes| && |tree.nodes| == id + 1
      ensures tree.nodes[id] == DatasetNode(header.pos + 8, header.len, syntax, map[])
      ensures var t := old(tree);
        var sq := t.sqs[|t.sqs| - 1];
        && t.nodes[sq].SequenceNode?
        && tree.nodes == t.nodes[sq := t.nodes[sq].(datasets := t.nodes[sq].datasets + [id])] + [tree.nodes[id]]
      ensures tree.sds == if |old(tree).sds| > |tree.sqs| then old(tree).sds[..|old(tree).sds| - 1] else old(tree).sds
    {
      var t := tree;
      var sds := if |t.sds| > |t.sqs| then t.sds[..|t.sds| - 1] else t.sds;
      id := |t.nodes|;
      var sq := t.sqs[|t.sqs| - 1];
      var s := t.nodes[sq];
      var nodes := t.nodes[sq := s.(datasets := s.datasets + [id])] + [DatasetNode(header.pos + 8, header.len, syntax, map[])];
      assert Grows(t.nodes, nodes) by {
        assert forall i :: 0 <= i < |t.nodes| ==> SameKind(t.nodes[i], nodes[i]);
      }
      TreeOkGrows(t, nodes, dataset);
      tree := t.(nodes := nodes, sds := sds);
    }

    /** Lines 531-542: a defined-length item that has fully arrived is read
        by a nested reader over exactly its bytes, filling the item dataset;
        the nested reader's stream position is where it starts in this one.
        Its bytes leave `_remain` at once, and the stream moves on by what
        the nested reader consumed. */
    method ReadItem(id: nat, options: ReadOptions, dictionary: D.Tag -> VRs.DcmVR) returns (r: ReadStatus)
      requires Valid() && header.tag.Some? && header.len != UndefinedLength && header.len <= cursor.remain
      requires id < |tree.nodes| && tree.nodes[id].DatasetNode?
      modifies this
      decreases |stream|, 0
      ensures Valid() && header == old(header) && Setting() == old(Setting())
      ensures Grows(old(tree).nodes, tree.nodes) && tree == old(tree).(nodes := tree.nodes)
      ensures cursor.remain == old(cursor).remain - header.len && cursor.read == old(cursor).read + header.len
      ensures cursor.bytes == old(cursor).bytes && cursor.need == old(cursor).need
      ensures old(cursor).position <= cursor.position <= old(cursor).position + header.len
      ensures r != SuccessEndRead
    {
      var p, n := cursor.position, header.len;
      var segment := stream[p..p + n];
      var nested := new DicomStreamReader(segment, canSeek);
      nested.SetDataset(tree.nodes, id);
      nested.offset := header.pos + 8;
      r := nested.Read(None, options, dictionary);
      TreeOkGrows(tree, nested.tree.nodes, dataset);
      tree := tree.(nodes := nested.tree.nodes);
      cursor := cursor.(position := p + nested.cursor.position, remain := cursor.remain - n, read := cursor.read + n);
    }

    /** `InsertSequenceItem`. An item opens a new item dataset in the top
        sequence: a defined-length item (once all of it has arrived) is
        read by a nested reader over its bytes, an undefined-length one is
        pushed. An item delimiter closes the open item dataset; a sequence
        delimiter closes it and the sequence. */
    method InsertSequenceItem(options: ReadOptions, dictionary: D.Tag -> VRs.DcmVR) returns (r: ReadStatus)
      requires Valid() && header.tag.Some? && IsDelimiting(header.tag.value) && |tree.sqs| > 0
      requires tree.fragment.None?
      modifies this
      decreases |stream|, 1
      ensures Valid() && header == old(header) && Setting() == old(Setting())
      ensures Grows(old(tree).nodes, tree.nodes) && tree.fragment == None
      ensures cursor.remain <= old(cursor).remain && cursor.read + cursor.remain == old(cursor.read + cursor.remain)
      ensures header.tag.value == ItemTag && header.len != UndefinedLength && header.len > old(cursor).remain ==>
        r == NeedMoreData && tree == old(tree) &&
        cursor == old(cursor).(need := ShortItemNeed(old(cursor).remain, header.len))
      ensures header.tag.value == ItemTag && !(header.len != UndefinedLength && header.len > old(cursor).remain) ==>
        var id := |old(tree).nodes|;
        var t := old(tree);
        var kept := if |t.sds| > |t.sqs| then t.sds[..|t.sds| - 1] else t.sds;
        && tree.sqs == t.sqs && id < |tree.nodes| && tree.nodes[id].DatasetNode?
        && (header.len == UndefinedLength ==>
              && r == ReadStatus.Success && tree.sds == kept + [id] && cursor == old(cursor)
              && tree.nodes[id] == DatasetNode(header.pos + 8, header.len, syntax, map[]))
        && (header.len != UndefinedLength ==>
              && tree.sds == kept && cursor.remain == old(cursor).remain - header.len
              && old(cursor).position <= cursor.position <= old(cursor).position + header.len)
      ensures header.tag.value == ItemDelimitationTag ==>
        && r == ReadStatus.Success && cursor == old(cursor)
        && var t := old(tree);
           tree == t.(sds := if |t.sds| == |t.sqs| then t.sds[..|t.sds| - 1] else t.sds)
      ensures header.tag.value == SequenceDelimitationTag ==>
        && r == ReadStatus.Success && cursor == old(cursor)
        && var t := old(tree);
           tree == t.(sds := if |t.sds| == |t.sqs| then t.sds[..|t.sds| - 1] else t.sds, sqs := t.sqs[..|t.sqs| - 1])
    {
      var t := tree;
      if header.tag.value == ItemTag {
        if header.len != UndefinedLength && header.len > cursor.remain {
          r := NeedMore(ShortItemNeed(cursor.remain, header.len));
          return;
        }
        var id := OpenItem();
        if header.len != UndefinedLength {
          r := ReadItem(id, options, dictionary);
        } else {
          tree := tree.(sds := tree.sds + [id]);
          r := ReadStatus.Success;
        }
      } else if header.tag.value == ItemDelimitationTag {
        tree := t.(sds := if |t.sds| == |t.sqs| then t.sds[..|t.sds| - 1] else t.sds);
        r := ReadStatus.Success;
      } else {
        tree := t.(sds := if |t.sds| == |t.sqs| then t.sds[..|t.sds| - 1] else t.sds, sqs := t.sqs[..|t.sqs| - 1]);
        r := ReadStatus.Success;
      }
    }

    /** An undefined- or defined-length SQ: a new sequence, added to the
        target dataset and pushed. */
    method OpenSequence(options: ReadOptions)
      requires Valid() && header.tag.Some?
      modifies this
      ensures Valid() && header == old(header) && cursor == old(cursor) && Setting() == old(Setting())
      ensures Grows(old(tree).nodes, tree.nodes) && tree.fragment == old(tree).fragment
      ensures var id := |old(tree).nodes|;
        && id < |tree.nodes| && tree.nodes[id].SequenceNode?
        && tree.nodes[id] == SequenceNode(header.tag.value, header.pos, header.len, tree.nodes[id].endian, [])
        && tree.sqs == old(tree).sqs + [id]
    {
      var id := Allocate(SequenceNode(header.tag.value, header.pos, header.len, syntax.endian, []));
      InsertDatasetItem(id, options);
      tree := tree.(sqs := tree.sqs + [id]);
    }

    /** An undefined-length value of any other VR: a new fragment sequence,
        added to the target dataset and made the open one. */
    method OpenFragments(options: ReadOptions)
      requires Valid() && header.tag.Some? && header.vr.Some?
      modifies this
      ensures Valid() && header == old(header) && cursor == old(cursor) && Setting() == old(Setting())
      ensures Grows(old(tree).nodes, tree.nodes) && tree.sqs == old(tree).sqs
      ensures var id := |old(tree).nodes|;
        && id < |tree.nodes| && tree.fragment == Some(id) && tree.nodes[id].FragmentNode?
        && tree.nodes[id] == FragmentNode(header.tag.value, header.vr.value, header.pos, tree.nodes[id].endian, None, [])
    {
      var id := Allocate(FragmentNode(header.tag.value, header.vr.value, header.pos, syntax.endian, None, []));
      InsertDatasetItem(id, options);
      tree := tree.(fragment := Some(id));
    }

    /** A defined-length value that has fully arrived: its bytes become an
        element, added to the target dataset. */
    method InsertValue(options: ReadOptions)
      requires Valid() && header.tag.Some? && header.vr.Some? && header.len <= cursor.remain
      modifies this
      ensures Valid() && header == old(header) && Setting() == old(Setting())
      ensures Grows(old(tree).nodes, tree.nodes) && tree.sqs == old(tree).sqs && tree.fragment == old(tree).fragment
      ensures cursor == old(cursor).(position := old(cursor).position + header.len,
                                     remain := old(cursor).remain - header.len, read := old(cursor).read + header.len)
      ensures var id := |old(tree).nodes|;
        var p := old(cursor).position;
        var data := stream[p..p + header.len];
        && id < |tree.nodes| && tree.nodes[id].ElementNode?
        && tree.nodes[id] == ElementNode(D.Element(header.tag.value, header.vr.value, D.Bytes(data),
                                                    tree.nodes[id].element.endian), header.pos)
    {
      var p, n := cursor.position, header.len;
      var id := Allocate(ElementNode(D.Element(header.tag.value, header.vr.value, D.Bytes(stream[p..p + n]), syntax.endian), header.pos));
      cursor := cursor.(position := p + n, remain := cursor.remain - n, read := cursor.read + n);
      InsertDatasetItem(id, options);
    }

    /** Lines 264-282 for an element outside sequences' delimiters and
        fragments: an undefined length opens a sequence (SQ) or a fragment
        sequence; a defined-length SQ opens a sequence; any other value is
        taken when all of it has arrived, and otherwise NeedMoreData asks
        for the rest. */
    method InsertElement(options: ReadOptions) returns (r: ReadStatus)
      requires Valid() && header.tag.Some? && header.vr.Some?
      modifies this
      ensures Valid() && header == old(header) && Setting() == old(Setting())
      ensures Grows(old(tree).nodes, tree.nodes)
      ensures cursor.remain <= old(cursor).remain && cursor.read + cursor.remain == old(cursor.read + cursor.remain)
      ensures r == ReadStatus.Success || r == NeedMoreData
      ensures r == NeedMoreData <==>
        header.len != UndefinedLength && header.vr.value != VRs.SQ && old(cursor).remain < header.len
      ensures r == NeedMoreData ==>
        tree == old(tree) && cursor == old(cursor).(need := ShortItemNeed(old(cursor).remain, header.len))
      ensures header.vr.value == VRs.SQ ==> tree.sqs == old(tree).sqs + [|old(tree).nodes|]
      ensures header.len == UndefinedLength && header.vr.value != VRs.SQ ==> tree.fragment == Some(|old(tree).nodes|)
    {
      if header.len == UndefinedLength {
        if header.vr.value == VRs.SQ {
          OpenSequence(options);
        } else {
          OpenFragments(options);
        }
        r := ReadStatus.Success;
      } else if header.vr.value == VRs.SQ {
        OpenSequence(options);
        r := ReadStatus.Success;
      } else if cursor.remain >= header.len {
        InsertValue(options);
        r := ReadStatus.Success;
      } else {
        r := NeedMore(ShortItemNeed(cursor.remain, header.len));
      }
    }

    /** Lines 211-223: the tag, VR and length fields of the element, each
        parsed unless it is already pending. Success leaves a whole header
        pending and, when no tag was pending before, has consumed at least
        the tag. */
    method ParseHeader(stop: Option<D.Tag>, options: ReadOptions, dictionary: D.Tag -> VRs.DcmVR) returns (r: ReadStatus)
      requires Valid()
      modifies this
      ensures Valid() && tree == old(tree) && Setting() == old(Setting())
      ensures cursor.remain <= old(cursor).remain && cursor.read + cursor.remain == old(cursor.read + cursor.remain)
      ensures r == ReadStatus.Success ==>
        header.tag.Some? && header.vr.Some? && (old(header).tag.None? ==> cursor.remain < old(cursor).remain)
      ensures r == SuccessEndRead ==> StoppedAt(stop, options)
      ensures r == NeedMoreData ==> 0 <= cursor.remain < cursor.need
    {
      r := ParseTag(stop, options);
      if r != ReadStatus.Success {
        return;
      }
      r := ParseVR(options, dictionary);
      if r != ReadStatus.Success {
        return;
      }
      r := ParseLength();
    }

    /** Lines 226-287: a private creator read as UN becomes LO; the element
        then goes to the open fragment sequence, to the top sequence (item
        and delimiter tags), or to the target dataset after a sequence that
        has ended is closed. The statuses of InsertFragmentItem and
        InsertSequenceItem are not looked at, as in the source. Success
        resets the header fields. */
    method Dispatch(options: ReadOptions, dictionary: D.Tag -> VRs.DcmVR) returns (r: ReadStatus)
      requires Valid() && header.tag.Some? && header.vr.Some?
      modifies this
      decreases |stream|, 2
      ensures Valid() && Grows(old(tree).nodes, tree.nodes) && Setting() == old(Setting())
      ensures cursor.remain <= old(cursor).remain && cursor.read + cursor.remain == old(cursor.read + cursor.remain)
      ensures r == ReadStatus.Success || r == NeedMoreData
      ensures r == ReadStatus.Success ==> header == Header(None, None, UndefinedLength, old(header).pos)
      ensures r == NeedMoreData ==>
        && header.tag.Some? && header.vr.Some? && header.len != UndefinedLength
        && 0 < cursor.need && cursor.remain + cursor.need == header.len
    {
      if header.vr.value == VRs.UN && IsPrivate(header.tag.value) && header.tag.value.element <= 0xFF {
        header := header.(vr := Some(VRs.LO));
      }
      if tree.fragment.Some? {
        var _ := InsertFragmentItem();
      } else if |tree.sqs| > 0 && IsDelimiting(header.tag.value) {
        var _ := InsertSequenceItem(options, dictionary);
      } else {
        CloseEndedSequence();
        r := InsertElement(options);
        if r != ReadStatus.Success {
          return;
        }
      }
      header := Header(None, None, UndefinedLength, header.pos);
      r := ReadStatus.Success;
    }

    /** One pass of the read loop (lines 211-287). Success means the
        element is complete and the header fields are reset; any other
        status ends the read. */
    method Step(stop: Option<D.Tag>, options: ReadOptions, dictionary: D.Tag -> VRs.DcmVR) returns (r: ReadStatus)
      requires Valid() && cursor.remain > 0
      modifies this
      decreases |stream|, 3
      ensures Valid() && Grows(old(tree).nodes, tree.nodes) && Setting() == old(Setting())
      ensures cursor.remain <= old(cursor).remain && cursor.read + cursor.remain == old(cursor.read + cursor.remain)
      ensures r == ReadStatus.Success ==> header.tag.None? && Progress() < old(Progress())
      ensures r == SuccessEndRead ==> StoppedAt(stop, options)
      ensures r == NeedMoreData ==>
        0 < cursor.need &&
        (cursor.remain < cursor.need ||
         (header.tag.Some? && header.vr.Some? && header.len != UndefinedLength && cursor.remain + cursor.need == header.len))
    {
      r := ParseHeader(stop, options, dictionary);
      if r != ReadStatus.Success {
        return;
      }
      r := Dispatch(options, dictionary);
    }

    /** `Read`: headers and values are parsed while bytes remain. It ends
        with Success when the stream is used up or a stop condition is met,
        and otherwise with the status that interrupted it; the pending
        header survives for the next call. Every byte taken from `_remain`
        is added to `_read`. */
    method Read(stop: Option<D.Tag>, options: ReadOptions, dictionary: D.Tag -> VRs.DcmVR) returns (r: ReadStatus)
      requires Valid()
      modifies this
      decreases |stream|, 4
      ensures Valid() && Grows(old(tree).nodes, tree.nodes) && Setting() == old(Setting())
      ensures cursor.read + cursor.remain == old(cursor).read + (|stream| - old(cursor).position)
      ensures r != SuccessEndRead
      ensures r == ReadStatus.Success ==> cursor.remain == 0 || StoppedAt(stop, options)
      ensures r == NeedMoreData ==>
        0 < cursor.need &&
        (cursor.remain < cursor.need ||
         (header.tag.Some? && header.vr.Some? && header.len != UndefinedLength && cursor.remain + cursor.need == header.len))
    {
      cursor := cursor.(need := 0, remain := |stream| - cursor.position);
      while cursor.remain > 0
        invariant Valid() && Grows(old(tree).nodes, tree.nodes) && Setting() == old(Setting())
        invariant cursor.read + cursor.remain == old(cursor).read + (|stream| - old(cursor).position)
        decreases Progress()
      {
        var status := Step(stop, options, dictionary);
        if status == SuccessEndRead {
          return ReadStatus.Success;
        }
        if status != ReadStatus.Success {
          return status;
        }
      }
      r := ReadStatus.Success;
    }
  }
}
