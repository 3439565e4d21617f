/** The film-session bookkeeping of the print SCP
    (trunk/DicomPrintScp/DicomPrint.cs): a Basic Film Session holds its
    film boxes, and a film box lays out its image boxes from the Image
    Display Format (2010,0010) of DICOM PS3.3 section C.13.5.1:
    "STANDARD\C,R" for a grid, "ROW\n1,n2,..." and "COL\n1,n2,..." for
    rows or columns of the given sizes.

    A dataset's print attributes are a map from the attribute's keyword to
    its value; the getters with defaults read it. */
module Print {
  import opened Ints
  import opened Wrappers
  import Text
  import UidTrunk

  /** `DcmUID.Generate(baseUid, nextSeq)`: the base UID, a dot, and the
      sequence number in decimal. */
  function GenerateUid(base: string, n: int): string
  {
    base + "." + Text.IntToString(n)
  }

  /** Different numbers under one base give different UIDs. */
  lemma GenerateUidInjective(base: string, a: int, b: int)
    requires GenerateUid(base, a) == GenerateUid(base, b)
    ensures a == b
  {
    assert GenerateUid(base, a)[|base| + 1..] == Text.IntToString(a);
    assert GenerateUid(base, b)[|base| + 1..] == Text.IntToString(b);
    Text.IntToStringInjective(a, b);
  }

  // -------------------------------------------------------- attributes

  /** The value of a print attribute: a string (CS, LO, ST, IS) or an
      unsigned 16-bit number (US). */
  datatype Value = StringValue(s: string) | UShortValue(w: uint16)

  type Attributes = map<string, Value>

  /** `GetString(tag, default)`: the attribute's string, or the default. */
  function GetString(a: Attributes, key: string, default: string): (s: string)
    ensures key in a && a[key].StringValue? ==> s == a[key].s
    ensures !(key in a && a[key].StringValue?) ==> s == default
  {
    if key in a && a[key].StringValue? then a[key].s else default
  }

  /** `GetUInt16(tag, default)`: the attribute's number, or the default. */
  function GetUInt16(a: Attributes, key: string, default: uint16): (w: uint16)
    ensures key in a && a[key].UShortValue? ==> w == a[key].w
    ensures !(key in a && a[key].UShortValue?) ==> w == default
  {
    if key in a && a[key].UShortValue? then a[key].w else default
  }

  /** `GetValueString(ImageDisplayFormat)`: absent is null. */
  function DisplayFormat(a: Attributes): (f: Option<string>)
    ensures f.Some? <==> "ImageDisplayFormat" in a && a["ImageDisplayFormat"].StringValue?
  {
    if "ImageDisplayFormat" in a && a["ImageDisplayFormat"].StringValue? then Some(a["ImageDisplayFormat"].s) else None
  }

  /** The film box attributes that `Initialize` writes back through their
      own getters (lines 591-601), with the getters' defaults. */
  const FilmBoxDefaults: map<string, Value> := map[
    "FilmOrientation" := StringValue("PORTRAIT"),
    "FilmSizeID" := StringValue("8_5INX11IN"),
    "MagnificationType" := StringValue("BILINEAR"),
    "MaxDensity" := UShortValue(0),
    "BorderDensity" := StringValue("BLACK"),
    "EmptyImageDensity" := StringValue("BLACK"),
    "MinDensity" := UShortValue(0),
    "Trim" := StringValue("NO"),
    "RequestedResolutionID" := StringValue("STANDARD")
  ]

  /** What the getter of an attribute returns, as a value: the stored one
      when present with the getter's kind, else the default. */
  function Get(a: Attributes, key: string, default: Value): (v: Value)
    ensures v.StringValue? == default.StringValue?
    ensures key in a && a[key].StringValue? == default.StringValue? ==> v == a[key]
    ensures !(key in a && a[key].StringValue? == default.StringValue?) ==> v == default
  {
    match default
    case StringValue(d) => StringValue(GetString(a, key, d))
    case UShortValue(d) => UShortValue(GetUInt16(a, key, d))
  }

  /** `X = X` for each defaulted attribute: the getter's value is stored. */
  function WithDefaults(a: Attributes, defaults: map<string, Value>): Attributes
  {
    map k | k in a.Keys + defaults.Keys :: if k in defaults then Get(a, k, defaults[k]) else a[k]
  }

  /** Writing the defaults back changes no getter's answer, stores every
      defaulted attribute, keeps every other attribute, and a second
      write-back changes nothing. */
  lemma WithDefaultsKeepsGetters(a: Attributes, defaults: map<string, Value>)
    ensures var r := WithDefaults(a, defaults);
      && (forall k :: k in defaults ==> k in r && r[k] == Get(r, k, defaults[k]) == Get(a, k, defaults[k]))
      && (forall k :: k !in defaults ==> (k in r <==> k in a) && (k in a ==> r[k] == a[k]))
      && WithDefaults(r, defaults) == r
  {
    var r := WithDefaults(a, defaults);
    assert WithDefaults(r, defaults) == r by {
      assert WithDefaults(r, defaults).Keys == r.Keys;
    }
  }

  /** The Image Display Format, read after the write-back, is the one the
      dataset came with. */
  lemma DefaultsKeepDisplayFormat(a: Attributes)
    ensures DisplayFormat(WithDefaults(a, FilmBoxDefaults)) == DisplayFormat(a)
  {
    assert "ImageDisplayFormat" !in FilmBoxDefaults;
  }

  // ------------------------------------------------------- image boxes

  /** A Basic Color or Grayscale Image Box: its SOP class, instance UID and
      attributes. */
  datatype ImageBox = ImageBox(sopClass: UidTrunk.DcmUID, instance: string, attributes: Attributes)

  /** A reference item of the Referenced Image Box Sequence. */
  datatype Reference = Reference(sopClass: UidTrunk.DcmUID, instance: string)

  /** The image box class of a session: color exactly for Basic Color
      Print Management, grayscale otherwise. The source compares with the
      registry's instance, the one DcmUID the UID text identifies, so
      comparing the text decides the same. */
  function ImageBoxClass(sessionClass: UidTrunk.DcmUID): (c: UidTrunk.DcmUID)
    ensures c == UidTrunk.BasicColorImageBox <==> sessionClass.uid == UidTrunk.BasicColorPrintManagement.uid
    ensures c != UidTrunk.BasicColorImageBox ==> c == UidTrunk.BasicGrayscaleImageBox
  {
    if sessionClass.uid == UidTrunk.BasicColorPrintManagement.uid then UidTrunk.BasicColorImageBox
    else UidTrunk.BasicGrayscaleImageBox
  }

  /** The image box `CreateImageBox` makes as the `k`-th (from 0) box of a
      film box: UID "<film box>.<k+1>" and Image Position k+1 cast to
      `ushort`. */
  function NewImageBox(sopClass: UidTrunk.DcmUID, film: string, k: nat): ImageBox
  {
    ImageBox(sopClass, GenerateUid(film, k + 1), map["ImagePosition" := UShortValue(((k + 1) % TWO_16) as uint16)])
  }

  /** The image boxes from position `from` (counted from 0) on, `n` of them. */
  function NewImageBoxes(sopClass: UidTrunk.DcmUID, film: string, from: nat, n: nat): (bs: seq<ImageBox>)
    ensures |bs| == n
  {
    seq(n, k requires 0 <= k < n => NewImageBox(sopClass, film, from + k))
  }

  /** The references the boxes add to the Referenced Image Box Sequence. */
  function References(bs: seq<ImageBox>): (rs: seq<Reference>)
    ensures |rs| == |bs|
  {
    seq(|bs|, k requires 0 <= k < |bs| => Reference(bs[k].sopClass, bs[k].instance))
  }

  /** The image boxes of a film box have distinct UIDs, and below 65535
      boxes their Image Positions are 1, 2, 3, ... */
  lemma NewImageBoxesDistinct(sopClass: UidTrunk.DcmUID, film: string, n: nat)
    ensures var bs := NewImageBoxes(sopClass, film, 0, n);
      && (forall i, j :: 0 <= i < j < n ==> bs[i].instance != bs[j].instance)
      && (forall k :: 0 <= k < n && k + 1 < TWO_16 ==> ImagePosition(bs[k]) as int == k + 1)
  {
    var bs := NewImageBoxes(sopClass, film, 0, n);
    forall i, j | 0 <= i < j < n ensures bs[i].instance != bs[j].instance {
      if bs[i].instance == bs[j].instance {
        GenerateUidInjective(film, i + 1, j + 1);
      }
    }
  }

  /** Image box attributes that fall back to the film box's getters. */
  function MagnificationType(b: ImageBox, film: Attributes): string {
    GetString(b.attributes, "MagnificationType", FilmMagnificationType(film))
  }

  function SmoothingType(b: ImageBox, film: Attributes): string {
    GetString(b.attributes, "SmoothingType", FilmSmoothingType(film))
  }

  function MinDensity(b: ImageBox, film: Attributes): uint16 {
    GetUInt16(b.attributes, "MinDensity", FilmMinDensity(film))
  }

  function MaxDensity(b: ImageBox, film: Attributes): uint16 {
    GetUInt16(b.attributes, "MaxDensity", FilmMaxDensity(film))
  }

  function ConfigurationInformation(b: ImageBox, film: Attributes): string {
    GetString(b.attributes, "ConfigurationInformation", FilmConfigurationInformation(film))
  }

  /** Image box attributes with fixed defaults. */
  function ImagePosition(b: ImageBox): uint16 { GetUInt16(b.attributes, "ImagePosition", 1) }
  function Polarity(b: ImageBox): string { GetString(b.attributes, "Polarity", "NORMAL") }
  function RequestedDecimateCropBehavior(b: ImageBox): string {
    GetString(b.attributes, "RequestedDecimateCropBehavior", "DECIMATE")
  }

  /** The film box getters the image box getters fall back to. */
  function FilmMagnificationType(film: Attributes): string { GetString(film, "MagnificationType", "BILINEAR") }
  function FilmSmoothingType(film: Attributes): string { GetString(film, "SmoothingType", "") }
  function FilmMinDensity(film: Attributes): uint16 { GetUInt16(film, "MinDensity", 0) }
  function FilmMaxDensity(film: Attributes): uint16 { GetUInt16(film, "MaxDensity", 0) }
  function FilmConfigurationInformation(film: Attributes): string { GetString(film, "ConfigurationInformation", "") }

  /** A new image box sets none of the inherited attributes, so it shows
      its film box's values and the fixed defaults. */
  lemma NewImageBoxInherits(sopClass: UidTrunk.DcmUID, film: string, k: nat, a: Attributes)
    ensures var b := NewImageBox(sopClass, film, k);
      && MagnificationType(b, a) == FilmMagnificationType(a)
      && SmoothingType(b, a) == FilmSmoothingType(a)
      && MinDensity(b, a) == FilmMinDensity(a)
      && MaxDensity(b, a) == FilmMaxDensity(a)
      && ConfigurationInformation(b, a) == FilmConfigurationInformation(a)
      && Polarity(b) == "NORMAL" && RequestedDecimateCropBehavior(b) == "DECIMATE"
  {
    var b := NewImageBox(sopClass, film, k);
    assert b.attributes.Keys == {"ImagePosition"};
  }

  /** An attribute the image box sets itself overrides its film box's. */
  lemma OwnValueOverrides(b: ImageBox, a: Attributes, s: string, w: uint16)
    ensures MagnificationType(b.(attributes := b.attributes["MagnificationType" := StringValue(s)]), a) == s
    ensures SmoothingType(b.(attributes := b.attributes["SmoothingType" := StringValue(s)]), a) == s
    ensures MinDensity(b.(attributes := b.attributes["MinDensity" := UShortValue(w)]), a) == w
    ensures MaxDensity(b.(attributes := b.attributes["MaxDensity" := UShortValue(w)]), a) == w
  {
  }

  // ------------------------------------------------------------ layout

  /** How many image boxes `Initialize` creates and what it returns. */
  datatype Layout = Layout(count: nat, ok: bool)

  /** How many passes a counting loop up to `n` makes. */
  function Clamp(n: int): nat
  {
    if n > 0 then n else 0
  }

  /** `int.Parse` of each piece: `None` where it throws. */
  function Parsed(parts: seq<string>): (ns: seq<Option<int32>>)
    ensures |ns| == |parts|
  {
    seq(|parts|, i requires 0 <= i < |parts| => Text.ParseInt32(parts[i]))
  }

  /** The ROW/COL loop over the parsed counts: each count adds its boxes;
      the first that did not parse ends the loop with false, keeping the
      boxes made so far. */
  function CountRuns(ns: seq<Option<int32>>): Layout
    decreases |ns|
  {
    if |ns| == 0 then Layout(0, true)
    else
      var prefix := CountRuns(ns[..|ns| - 1]);
      if !prefix.ok then prefix
      else
        match ns[|ns| - 1]
        case None => Layout(prefix.count, false)
        case Some(k) => Layout(prefix.count + Clamp(k), true)
  }

  /** The sum of counts that all parsed. */
  function SumCounts(ns: seq<Option<int32>>): nat
    requires forall i :: 0 <= i < |ns| ==> ns[i].Some?
    decreases |ns|
  {
    if |ns| == 0 then 0 else SumCounts(ns[..|ns| - 1]) + Clamp(ns[|ns| - 1].value)
  }

  /** The ROW/COL loop succeeds exactly when every count parses, and then
      creates their sum. */
  lemma {:induction false} CountRunsSum(ns: seq<Option<int32>>)
    ensures CountRuns(ns).ok <==> forall i :: 0 <= i < |ns| ==> ns[i].Some?
    ensures CountRuns(ns).ok ==> CountRuns(ns).count == SumCounts(ns)
    decreases |ns|
  {
    if |ns| > 0 {
      var prefix := ns[..|ns| - 1];
      CountRunsSum(prefix);
      assert forall i :: 0 <= i < |prefix| ==> prefix[i] == ns[i];
    }
  }

  /** One more pass of the ROW/COL loop. */
  lemma CountRunsNext(ns: seq<Option<int32>>, i: nat, made: nat)
    requires i < |ns| && CountRuns(ns[..i]) == Layout(made, true)
    ensures CountRuns(ns[..i + 1]) == match ns[i]
      case None => Layout(made, false)
      case Some(k) => Layout(made + Clamp(k), true)
  {
    assert ns[..i + 1][..i] == ns[..i];
  }

  /** Once a count fails to parse, later counts change nothing. */
  lemma {:induction false} CountRunsStops(ns: seq<Option<int32>>, i: nat)
    requires i <= |ns| && !CountRuns(ns[..i]).ok
    ensures CountRuns(ns) == CountRuns(ns[..i])
    decreases |ns| - i
  {
    if i < |ns| {
      assert ns[..i + 1][..i] == ns[..i];
      CountRunsStops(ns, i + 1);
    } else {
      assert ns[..i] == ns;
    }
  }

  /** The STANDARD grid "row,col": both numbers must parse. */
  function Grid(dims: seq<string>): Option<nat>
  {
    if |dims| == 2 && Text.ParseInt32(dims[0]).Some? && Text.ParseInt32(dims[1]).Some? then
      Some(Clamp(Text.ParseInt32(dims[0]).value) * Clamp(Text.ParseInt32(dims[1]).value))
    else None
  }

  /** The ROW/COL test and loop (lines 635-647). */
  function RowsOrColumns(parts: seq<string>): Layout
    requires |parts| >= 1
  {
    if (parts[0] == "ROW" || parts[0] == "COL") && |parts| == 2 then CountRuns(Parsed(Text.Split(parts[1], ',')))
    else Layout(0, false)
  }

  /** The format as `Initialize` reads it (lines 610-651), as written: the
      STANDARD branch reuses `parts` for the comma split, so the ROW/COL
      test that follows sees the pieces of the STANDARD value. */
  function LayoutAsWritten(format: Option<string>): Layout
  {
    if format.None? || format.value == "" then Layout(0, false)
    else
      var parts := Text.Split(format.value, '\\');
      if parts[0] == "STANDARD" && |parts| == 2 then
        var dims := Text.Split(parts[1], ',');
        if Grid(dims).Some? then Layout(Grid(dims).value, true) else RowsOrColumns(dims)
      else RowsOrColumns(parts)
  }

  /** The format as evidently intended: the ROW/COL test looks at the
      format's own first part. */
  function DisplayLayout(format: Option<string>): Layout
  {
    if format.None? || format.value == "" then Layout(0, false)
    else
      var parts := Text.Split(format.value, '\\');
      var grid := if parts[0] == "STANDARD" && |parts| == 2 then Grid(Text.Split(parts[1], ',')) else None;
      if grid.Some? then Layout(grid.value, true) else RowsOrColumns(parts)
  }

  /** The correction only rejects: wherever the two readings differ, the
      intended one creates nothing and returns false; a missing or empty
      format is rejected by both. */
  lemma CorrectionOnlyRejects(format: Option<string>)
    ensures DisplayLayout(format).ok ==> LayoutAsWritten(format) == DisplayLayout(format)
    ensures LayoutAsWritten(format) != DisplayLayout(format) ==> DisplayLayout(format) == Layout(0, false)
    ensures format.None? || format == Some("") ==> DisplayLayout(format) == Layout(0, false)
  {
  }

  /** A number's decimal text holds no character other than digits and
      the minus sign. */
  lemma NumberHasNo(n: int, c: char)
    requires !Text.IsDigit(c) && c != '-'
    ensures c !in Text.IntToString(n)
  {
    var d := Text.Digits(if n < 0 then -n else n);
    assert Text.IntToString(n) == d || Text.IntToString(n) == "-" + d;
  }

  /** Two pieces joined by a separator split back into them. */
  lemma SplitTwo(x: string, y: string, c: char)
    requires c !in x && c !in y
    ensures Text.Split(x + [c] + y, c) == [x, y]
  {
    Text.SplitJoin([x, y], c);
    assert Text.Join([x, y], c) == x + [c] + Text.Join([y], c);
  }

  /** Neither "ROW" nor "COL" is a number. */
  lemma KindIsNoNumber(kind: string)
    requires kind == "ROW" || kind == "COL"
    ensures Text.ParseInt32(kind) == None
  {
    Text.TrimUnchanged(kind);
    assert !Text.IsDigit(kind[0]) && kind[0] != '-' && kind[0] != '+';
  }

  /** "STANDARD\row,col" with printed numbers lays out their product, in
      both readings. */
  lemma StandardLayout(row: int32, col: int32)
    ensures var format := Some("STANDARD\\" + Text.IntToString(row) + "," + Text.IntToString(col));
      && DisplayLayout(format) == Layout(Clamp(row) * Clamp(col), true)
      && LayoutAsWritten(format) == DisplayLayout(format)
  {
    var a, b := Text.IntToString(row), Text.IntToString(col);
    NumberHasNo(row, ',');
    NumberHasNo(col, ',');
    NumberHasNo(row, '\\');
    NumberHasNo(col, '\\');
    SplitTwo(a, b, ',');
    var dims := a + [','] + b;
    SplitTwo("STANDARD", dims, '\\');
    assert "STANDARD" + ['\\'] + dims == "STANDARD\\" + a + "," + b;
    Text.ParseIntToString(row);
    Text.ParseIntToString(col);
  }

  /** "ROW\n1,n2,..." (or "COL\...") with counts that all parse lays out
      their sum, in both readings. */
  lemma RowColumnFormat(kind: string, counts: string)
    requires kind == "ROW" || kind == "COL"
    requires '\\' !in counts
    requires forall i :: 0 <= i < |Text.Split(counts, ',')| ==> Text.ParseInt32(Text.Split(counts, ',')[i]).Some?
    ensures var format := Some(kind + "\\" + counts);
      && DisplayLayout(format) == Layout(SumCounts(Parsed(Text.Split(counts, ','))), true)
      && LayoutAsWritten(format) == DisplayLayout(format)
  {
    var format := kind + "\\" + counts;
    SplitTwo(kind, counts, '\\');
    assert kind + ['\\'] + counts == format;
    assert kind != "STANDARD";
    AllParsedSum(Text.Split(counts, ','));
  }

  /** Counts that all parse run to their sum. */
  lemma AllParsedSum(parts: seq<string>)
    requires forall i :: 0 <= i < |parts| ==> Text.ParseInt32(parts[i]).Some?
    ensures CountRuns(Parsed(parts)) == Layout(SumCounts(Parsed(parts)), true)
  {
    var ns := Parsed(parts);
    assert forall i :: 0 <= i < |ns| ==> ns[i].Some?;
    CountRunsSum(ns);
  }

  /** The pieces of "STANDARD\ROW,n": the format splits into "STANDARD"
      and "ROW,n", and that into "ROW" and n, which is not a grid but is
      a single run of n. */
  lemma StandardRowPieces(kind: string, n: int32)
    requires kind == "ROW" || kind == "COL"
    ensures var rest := kind + "," + Text.IntToString(n);
      && Text.Split("STANDARD\\" + rest, '\\') == ["STANDARD", rest]
      && Text.Split(rest, ',') == [kind, Text.IntToString(n)]
      && Grid([kind, Text.IntToString(n)]) == None
      && RowsOrColumns([kind, Text.IntToString(n)]) == Layout(Clamp(n), true)
      && RowsOrColumns(["STANDARD", rest]) == Layout(0, false)
  {
    StandardRowSplits(kind, n);
    KindIsNoNumber(kind);
    SingleRun(kind, n);
  }

  lemma StandardRowSplits(kind: string, n: int32)
    requires kind == "ROW" || kind == "COL"
    ensures var rest := kind + "," + Text.IntToString(n);
      && Text.Split("STANDARD\\" + rest, '\\') == ["STANDARD", rest]
      && Text.Split(rest, ',') == [kind, Text.IntToString(n)]
  {
    var num := Text.IntToString(n);
    NumberHasNo(n, ',');
    NumberHasNo(n, '\\');
    var rest := kind + "," + num;
    assert rest == kind + [','] + num;
    SplitTwo(kind, num, ',');
    assert '\\' !in rest;
    SplitTwo("STANDARD", rest, '\\');
    assert "STANDARD" + ['\\'] + rest == "STANDARD\\" + rest;
  }

  /** The ROW or COL format with the single count n is one run of n image
      boxes. */
  lemma SingleRun(kind: string, n: int32)
    requires kind == "ROW" || kind == "COL"
    ensures RowsOrColumns([kind, Text.IntToString(n)]) == Layout(Clamp(n), true)
  {
    var num := Text.IntToString(n);
    NumberHasNo(n, ',');
    assert Text.Split(num, ',') == [num] by {
      Text.SplitJoin([num], ',');
      assert Text.Join([num], ',') == num;
    }
    Text.ParseIntToString(n);
    assert Parsed([num]) == [Some(n)];
    assert CountRuns([Some(n)]) == Layout(Clamp(n), true) by {
      assert [Some(n)][..0] == [];
    }
    assert [kind, num][0] == kind && [kind, num][1] == num;
  }

  /** As written, "STANDARD\ROW,n" (and "STANDARD\COL,n") is laid out as
      the ROW format with the single count n, and returns true; the
      intended reading rejects it. */
  lemma StandardRowAsWritten(kind: string, n: int32)
    requires kind == "ROW" || kind == "COL"
    ensures var format := Some("STANDARD\\" + (kind + "," + Text.IntToString(n)));
      && LayoutAsWritten(format) == Layout(Clamp(n), true)
      && DisplayLayout(format) == Layout(0, false)
  {
    StandardRowPieces(kind, n);
  }

  /** A second run of image boxes continues the first: the boxes and the
      references of both runs are those of one run. */
  lemma RunsJoin(c: UidTrunk.DcmUID, film: string, bs: seq<ImageBox>, rs: seq<Reference>, start: nat, done: nat, n: nat)
    requires |bs| == start
    ensures (bs + NewImageBoxes(c, film, start, done)) + NewImageBoxes(c, film, start + done, n)
      == bs + NewImageBoxes(c, film, start, done + n)
    ensures (rs + References(NewImageBoxes(c, film, start, done))) + References(NewImageBoxes(c, film, start + done, n))
      == rs + References(NewImageBoxes(c, film, start, done + n))
  {
    var first := NewImageBoxes(c, film, start, done);
    var second := NewImageBoxes(c, film, start + done, n);
    assert first + second == NewImageBoxes(c, film, start, done + n);
    assert (bs + first) + second == bs + (first + second);
    assert References(first + second) == References(first) + References(second);
    assert (rs + References(first)) + References(second) == rs + (References(first) + References(second));
  }

  /** One more pass of the outer loop adds one more row. */
  lemma MultiplyStep(r: int, c: int)
    ensures (r + 1) * c == r * c + c
  {
  }

  // --------------------------------------------------------- film box

  /** A Basic Film Box: its instance UID, attributes, image boxes and the
      Referenced Image Box Sequence of its dataset. */
  class FilmBox {
    /** The image box class its session calls for. */
    const imageBoxClass: UidTrunk.DcmUID
    const instance: string
    var attributes: Attributes
    var boxes: seq<ImageBox>
    var references: seq<Reference>

    constructor (sopClass: UidTrunk.DcmUID, uid: string, dataset: Attributes)
      ensures imageBoxClass == sopClass && instance == uid && attributes == dataset
      ensures boxes == [] && references == []
    {
      imageBoxClass, instance, attributes := sopClass, uid, dataset;
      boxes, references := [], [];
    }

    /** The image boxes this film box makes from position `from` on. */
    function Made(from: nat, n: nat): seq<ImageBox>
    {
      NewImageBoxes(imageBoxClass, instance, from, n)
    }

    /** `CreateImageBox`: the next image box, and its reference. */
    method CreateImageBox()
      modifies this
      ensures boxes == old(boxes) + Made(|old(boxes)|, 1)
      ensures references == old(references) + References(Made(|old(boxes)|, 1))
      ensures attributes == old(attributes)
    {
      var box := NewImageBox(imageBoxClass, instance, |boxes|);
      boxes := boxes + [box];
      references := references + [Reference(box.sopClass, box.instance)];
    }

    /** `n` more image boxes: the body of a counting loop. */
    method CreateImageBoxes(n: int)
      modifies this
      ensures boxes == old(boxes) + Made(|old(boxes)|, Clamp(n))
      ensures references == old(references) + References(Made(|old(boxes)|, Clamp(n)))
      ensures attributes == old(attributes)
    {
      ghost var start := |boxes|;
      var i := 0;
      while i < n
        invariant 0 <= i && (i <= n || i == 0)
        invariant boxes == old(boxes) + Made(start, i)
        invariant references == old(references) + References(Made(start, i))
        invariant attributes == old(attributes)
      {
        ghost var before, refs := boxes, references;
        CreateImageBox();
        assert |before| == start + i;
        assert boxes == before + Made(start + i, 1);
        assert references == refs + References(Made(start + i, 1));
        RunsJoin(imageBoxClass, instance, old(boxes), old(references), start, i, 1);
        i := i + 1;
      }
    }

    /** `CreateImageBoxes` continuing a run of `made` image boxes. */
    method ExtendRun(n: int, ghost bs: seq<ImageBox>, ghost rs: seq<Reference>, ghost made: nat)
      modifies this
      requires boxes == bs + Made(|bs|, made) && references == rs + References(Made(|bs|, made))
      ensures boxes == bs + Made(|bs|, made + Clamp(n))
      ensures references == rs + References(Made(|bs|, made + Clamp(n)))
      ensures attributes == old(attributes)
    {
      ghost var before, refs := boxes, references;
      CreateImageBoxes(n);
      assert |before| == |bs| + made;
      RunsJoin(imageBoxClass, instance, bs, rs, |bs|, made, Clamp(n));
    }

    /** The STANDARD loops: `row` passes of `col` image boxes. */
    method CreateGrid(row: int, col: int)
      modifies this
      ensures boxes == old(boxes) + Made(|old(boxes)|, Clamp(row) * Clamp(col))
      ensures references == old(references) + References(Made(|old(boxes)|, Clamp(row) * Clamp(col)))
      ensures attributes == old(attributes)
    {
      ghost var start := |boxes|;
      ghost var done: nat := 0;
      var r := 0;
      while r < row
        invariant 0 <= r && (r <= row || r == 0)
        invariant done == r * Clamp(col)
        invariant boxes == old(boxes) + Made(start, done)
        invariant references == old(references) + References(Made(start, done))
        invariant attributes == old(attributes)
      {
        ExtendRun(col, old(boxes), old(references), done);
        MultiplyStep(r, Clamp(col));
        done := done + Clamp(col);
        r := r + 1;
      }
    }

    /** The ROW/COL loop: each count that parses adds that many image
        boxes; the first that does not ends it with false. */
    method CreateRuns(counts: seq<string>) returns (ok: bool)
      modifies this
      ensures ok == CountRuns(Parsed(counts)).ok
      ensures boxes == old(boxes) + Made(|old(boxes)|, CountRuns(Parsed(counts)).count)
      ensures references == old(references) + References(Made(|old(boxes)|, CountRuns(Parsed(counts)).count))
      ensures attributes == old(attributes)
    {
      ghost var start := |boxes|;
      var i := 0;
      var made: nat := 0;
      while i < |counts|
        invariant 0 <= i <= |counts|
        invariant CountRuns(Parsed(counts)[..i]) == Layout(made, true)
        invariant boxes == old(boxes) + Made(start, made)
        invariant references == old(references) + References(Made(start, made))
        invariant attributes == old(attributes)
      {
        var n := Text.ParseInt32(counts[i]);
        CountRunsNext(Parsed(counts), i, made);
        if n.None? {
          CountRunsStops(Parsed(counts), i + 1);
          return false;
        }
        ExtendRun(n.value, old(boxes), old(references), made);
        made := made + Clamp(n.value);
        i := i + 1;
      }
      assert Parsed(counts)[..i] == Parsed(counts);
      ok := true;
    }

    /** `Initialize`: a new, empty Referenced Image Box Sequence, the
        default attributes written back, and the image boxes the Image
        Display Format lays out; the result says whether it was understood. */
    method Initialize() returns (ok: bool)
      modifies this
      ensures ok == DisplayLayout(DisplayFormat(old(attributes))).ok
      ensures boxes == old(boxes) + Made(|old(boxes)|, DisplayLayout(DisplayFormat(old(attributes))).count)
      ensures references == References(Made(|old(boxes)|, DisplayLayout(DisplayFormat(old(attributes))).count))
      ensures attributes == WithDefaults(old(attributes), FilmBoxDefaults)
    {
      references := [];
      attributes := WithDefaults(attributes, FilmBoxDefaults);
      DefaultsKeepDisplayFormat(old(attributes));
      var format := DisplayFormat(attributes);
      if format.None? || format.value == "" {
        return false;
      }
      var parts := Text.Split(format.value, '\\');
      if parts[0] == "STANDARD" && |parts| == 2 {
        var dims := Text.Split(parts[1], ',');
        if |dims| == 2 {
          var row, col := Text.ParseInt32(dims[0]), Text.ParseInt32(dims[1]);
          if row.Some? && col.Some? {
            CreateGrid(row.value, col.value);
            return true;
          }
        }
      }
      if (parts[0] == "ROW" || parts[0] == "COL") && |parts| == 2 {
        ok := CreateRuns(Text.Split(parts[1], ','));
        return;
      }
      ok := false;
    }

    /** `FindImageBox`: the first image box with that UID, or null. */
    method FindImageBox(uid: string) returns (r: Option<ImageBox>)
      ensures r.Some? ==> exists i :: (0 <= i < |boxes| && boxes[i] == r.value && r.value.instance == uid
        && forall j :: 0 <= j < i ==> boxes[j].instance != uid)
      ensures r.None? <==> forall i :: 0 <= i < |boxes| ==> boxes[i].instance != uid
    {
      var i := 0;
      while i < |boxes|
        invariant 0 <= i <= |boxes|
        invariant forall j :: 0 <= j < i ==> boxes[j].instance != uid
      {
        if boxes[i].instance == uid {
          return Some(boxes[i]);
        }
        i := i + 1;
      }
      r := None;
    }
  }

  // ----------------------------------------------------- film session

  /** The UID `CreateFilmBox` gives its next film box, as written: the
      session UID and the number of film boxes plus one. */
  function NextFilmBoxUidAsWritten(session: string, uids: seq<string>): string
  {
    GenerateUid(session, |uids| + 1)
  }

  /** As written, after two film boxes are created and the first deleted,
      the next one gets the UID of the one that is left. */
  lemma FilmBoxUidReusedAsWritten(session: string)
    ensures var remaining := [GenerateUid(session, 2)];
      NextFilmBoxUidAsWritten(session, remaining) in remaining
  {
  }

  /** The UIDs of film boxes, in order. */
  function UidsOf(bs: seq<FilmBox>): (u: seq<string>)
    ensures |u| == |bs| && forall i :: 0 <= i < |bs| ==> u[i] == bs[i].instance
  {
    seq(|bs|, i requires 0 <= i < |bs| => bs[i].instance)
  }

  /** No UID appears twice. */
  ghost predicate Distinct(uids: seq<string>) {
    forall i, j :: 0 <= i < j < |uids| ==> uids[i] != uids[j]
  }

  /** Each UID is the session UID and its number; the numbers rise in
      creation order and none exceeds the count of film boxes created. */
  ghost predicate Numbered(session: string, uids: seq<string>, numbers: seq<int>, created: nat) {
    && |numbers| == |uids|
    && (forall i :: 0 <= i < |uids| ==> uids[i] == GenerateUid(session, numbers[i]))
    && (forall i :: 0 <= i < |numbers| ==> 0 < numbers[i] <= created)
    && (forall i, j :: 0 <= i < j < |numbers| ==> numbers[i] < numbers[j])
  }

  /** Numbered UIDs are distinct. */
  lemma NumberedDistinct(session: string, uids: seq<string>, numbers: seq<int>, created: nat)
    requires Numbered(session, uids, numbers, created)
    ensures Distinct(uids)
  {
    forall i, j | 0 <= i < j < |uids| ensures uids[i] != uids[j] {
      if uids[i] == uids[j] {
        GenerateUidInjective(session, numbers[i], numbers[j]);
      }
    }
  }

  /** The next number gives a UID not yet in use. */
  lemma NumberedAppend(session: string, uids: seq<string>, numbers: seq<int>, created: nat)
    requires Numbered(session, uids, numbers, created)
    ensures GenerateUid(session, created + 1) !in uids
    ensures Numbered(session, uids + [GenerateUid(session, created + 1)], numbers + [created + 1], created + 1)
  {
    if GenerateUid(session, created + 1) in uids {
      var i :| 0 <= i < |uids| && uids[i] == GenerateUid(session, created + 1);
      GenerateUidInjective(session, numbers[i], created + 1);
    }
  }

  /** Removing a film box keeps the numbering, and its UID is gone. */
  lemma NumberedRemove(session: string, uids: seq<string>, numbers: seq<int>, created: nat, i: nat)
    requires Numbered(session, uids, numbers, created) && i < |uids|
    ensures Numbered(session, uids[..i] + uids[i + 1..], numbers[..i] + numbers[i + 1..], created)
    ensures uids[i] !in uids[..i] + uids[i + 1..]
  {
    NumberedDistinct(session, uids, numbers, created);
    var rest, nums := uids[..i] + uids[i + 1..], numbers[..i] + numbers[i + 1..];
    forall k | 0 <= k < |rest|
      ensures rest[k] == uids[Skip(k, i)] && nums[k] == numbers[Skip(k, i)]
    {
    }
    forall k, l | 0 <= k < l < |nums| ensures nums[k] < nums[l] {
      assert nums[k] == numbers[Skip(k, i)] && nums[l] == numbers[Skip(l, i)];
    }
  }

  /** The index in the full sequence of the `k`-th element left after
      removing the one at `i`. */
  function Skip(k: nat, i: nat): nat
  {
    if k < i then k else k + 1
  }

  /** A Basic Film Session: its class, instance UID and film boxes. The
      film box UIDs are numbered by a count of the film boxes ever created,
      so that a UID is never given twice. */
  class FilmSession {
    const sessionClass: UidTrunk.DcmUID
    const instance: string
    var boxes: seq<FilmBox>
    /** Film boxes created so far. */
    var created: nat
    /** The number each film box's UID carries. */
    ghost var numbers: seq<int>

    ghost predicate Valid()
      reads this
    {
      Numbered(instance, UidsOf(boxes), numbers, created)
    }

    /** No two film boxes share a UID. */
    lemma UidsDistinct()
      requires Valid()
      ensures Distinct(UidsOf(boxes))
    {
      NumberedDistinct(instance, UidsOf(boxes), numbers, created);
    }

    constructor (sopClass: UidTrunk.DcmUID, uid: string)
      ensures Valid() && sessionClass == sopClass && instance == uid && boxes == [] && created == 0
    {
      sessionClass, instance, boxes, created, numbers := sopClass, uid, [], 0, [];
    }

    /** `CreateFilmBox`: a new film box over the given dataset, appended;
        its UID is new to the session. */
    method CreateFilmBox(dataset: Attributes) returns (box: FilmBox)
      requires Valid()
      modifies this
      ensures Valid() && fresh(box)
      ensures boxes == old(boxes) + [box] && created == old(created) + 1
      ensures box.instance == GenerateUid(instance, created) && box.instance !in old(UidsOf(boxes))
      ensures box.imageBoxClass == ImageBoxClass(sessionClass) && box.attributes == dataset
      ensures box.boxes == [] && box.references == []
    {
      NumberedAppend(instance, UidsOf(boxes), numbers, created);
      box := new FilmBox(ImageBoxClass(sessionClass), GenerateUid(instance, created + 1), dataset);
      assert UidsOf(boxes + [box]) == UidsOf(boxes) + [box.instance];
      boxes := boxes + [box];
      numbers := numbers + [created + 1];
      created := created + 1;
    }

    /** `DeleteFilmBox`: the first film box with that UID is removed; with
        none, nothing changes. Afterwards no film box has that UID. */
    method DeleteFilmBox(uid: string)
      requires Valid()
      modifies this
      ensures Valid() && created == old(created)
      ensures uid !in old(UidsOf(boxes)) ==> boxes == old(boxes)
      ensures uid in old(UidsOf(boxes)) ==> exists i :: (0 <= i < |old(boxes)| && old(boxes)[i].instance == uid
        && boxes == old(boxes)[..i] + old(boxes)[i + 1..])
      ensures uid !in UidsOf(boxes)
    {
      var i := 0;
      while i < |boxes|
        invariant 0 <= i <= |boxes|
        invariant forall j :: 0 <= j < i ==> boxes[j].instance != uid
      {
        if boxes[i].instance == uid {
          NumberedRemove(instance, UidsOf(boxes), numbers, created, i);
          assert UidsOf(boxes[..i] + boxes[i + 1..]) == UidsOf(boxes)[..i] + UidsOf(boxes)[i + 1..];
          boxes := boxes[..i] + boxes[i + 1..];
          numbers := numbers[..i] + numbers[i + 1..];
          return;
        }
        i := i + 1;
      }
    }

    /** `FindFilmBox`: the first film box with that UID, or null. */
    method FindFilmBox(uid: string) returns (r: Option<FilmBox>)
      ensures r.Some? <==> uid in UidsOf(boxes)
      ensures r.Some? ==> exists i :: (0 <= i < |boxes| && boxes[i] == r.value && r.value.instance == uid
        && forall j :: 0 <= j < i ==> boxes[j].instance != uid)
    {
      var i := 0;
      while i < |boxes|
        invariant 0 <= i <= |boxes|
        invariant forall j :: 0 <= j < i ==> boxes[j].instance != uid
      {
        if boxes[i].instance == uid {
          return Some(boxes[i]);
        }
        i := i + 1;
      }
      r := None;
    }

    /** `FindImageBox`: the first film box holding an image box with that
        UID gives its first such image box; null when none does. */
    method FindImageBox(uid: string) returns (r: Option<ImageBox>)
      ensures r.Some? ==> (r.value.instance == uid &&
        exists i, k :: 0 <= i < |boxes| && 0 <= k < |boxes[i].boxes| && boxes[i].boxes[k] == r.value
          && (forall j, l :: 0 <= j < i && 0 <= l < |boxes[j].boxes| ==> boxes[j].boxes[l].instance != uid)
          && (forall l :: 0 <= l < k ==> boxes[i].boxes[l].instance != uid))
      ensures r.None? <==> forall i, k :: 0 <= i < |boxes| && 0 <= k < |boxes[i].boxes| ==> boxes[i].boxes[k].instance != uid
    {
      var i := 0;
      while i < |boxes|
        invariant 0 <= i <= |boxes|
        invariant forall j, k :: 0 <= j < i && 0 <= k < |boxes[j].boxes| ==> boxes[j].boxes[k].instance != uid
      {
        var found := boxes[i].FindImageBox(uid);
        if found.Some? {
          return found;
        }
        i := i + 1;
      }
      r := None;
    }
  }
}
