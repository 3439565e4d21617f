/** `DcmDataset` of trunk/Dicom/Data/DcmDataset.cs: a table of data
    elements and sequences kept sorted by tag (a `SortedList` keyed by the
    32-bit tag card), with replace-on-add, removal by tag or mask, merge,
    the typed accessors, the write-length arithmetic and the
    transfer-syntax bookkeeping.

    Items are values here. A sequence holds the datasets of its items as
    values too, so what the source shares by reference (an item added to two
    datasets, an element edited through a reference obtained earlier) is
    copied in the model. The readers (`GetItem`, `GetString`, `GetInt32`,
    ...) only look at the table, so they are functions of the table; the
    operations that change it are methods of `DcmDataset`. */
module Dataset {
  import opened Wrappers
  import opened Ints
  import Text
  import VRs
  import TS = TransferSyntaxes
  import EndianIO

  // ---------------------------------------------------------------- tags

  datatype Tag = Tag(group: uint16, element: uint16)

  /** `DcmTag.Card`: the group in the high 16 bits, the element in the low. */
  function Card(t: Tag): (c: uint32)
    ensures c / TWO_16 == t.group && c % TWO_16 == t.element
  {
    t.group * TWO_16 + t.element
  }

  /** Tag order: by group, then by element. */
  predicate Less(a: Tag, b: Tag) {
    a.group < b.group || (a.group == b.group && a.element < b.element)
  }

  /** Ordering by card is ordering by group, then element, so the
      `SortedList` keyed by card keeps the tags in `Less` order, and
      different tags have different cards. */
  lemma CardOrder(a: Tag, b: Tag)
    ensures Card(a) < Card(b) <==> Less(a, b)
    ensures Card(a) == Card(b) <==> a == b
  {
    var ca, cb := Card(a), Card(b);
    assert ca == a.group * TWO_16 + a.element;
    assert cb == b.group * TWO_16 + b.element;
    if a.group < b.group {
      GroupStep(a.group, b.group);
    } else if b.group < a.group {
      GroupStep(b.group, a.group);
    }
  }

  lemma GroupStep(g: int, h: int)
    requires g < h
    ensures g * TWO_16 + TWO_16 <= h * TWO_16
  {
    assert (h - g) * TWO_16 >= TWO_16;
  }

  /** `DcmTagMask`: a tag matches when its card, masked, equals the mask's
      tag value. (`DcmTagMask.Parse` and its text form are not part of this
      model; a rule holds an already parsed mask, or `None`.) */
  datatype TagMask = TagMask(tag: uint32, mask: uint32)

  predicate IsMatch(m: TagMask, t: Tag) {
    (Card(t) as bv32 & m.mask as bv32) == m.tag as bv32
  }

  // --------------------------------------------------------------- items

  /** An element's value. Text elements hold their value string (values
      separated by '\'); the binary integer VRs hold their numbers; every
      other VR holds raw bytes. */
  datatype Value = Text(text: string) | Numbers(numbers: seq<int>) | Bytes(data: seq<uint8>)

  /** What `GetItem` can find: an element (`DcmElement`), a sequence of
      datasets (`DcmItemSequence`) or encapsulated fragments
      (`DcmFragmentSequence`). */
  datatype Item =
    | Element(tag: Tag, vr: VRs.DcmVR, value: Value, endian: EndianIO.Endian)
    | ItemSequence(tag: Tag, endian: EndianIO.Endian, entries: seq<SequenceItem>)
    | FragmentSequence(tag: Tag, vr: VRs.DcmVR, endian: EndianIO.Endian,
                       offsetTable: seq<uint32>, fragments: seq<seq<uint8>>)

  /** A `DcmItemSequenceItem`: the dataset of one sequence item. */
  datatype SequenceItem = SequenceItem(syntax: TS.DcmTS, items: seq<Item>)

  /** `item.Endian = e`. */
  function WithEndian(item: Item, e: EndianIO.Endian): (r: Item)
    ensures r.tag == item.tag && r.endian == e
  {
    match item
    case Element(t, vr, v, _) => Element(t, vr, v, e)
    case ItemSequence(t, _, s) => ItemSequence(t, e, s)
    case FragmentSequence(t, vr, _, o, f) => FragmentSequence(t, vr, e, o, f)
  }

  /** The string element classes: `DcmStringElement` holds one value (LT,
      ST, UT), `DcmMultiStringElement` several (the other string VRs). */
  predicate IsSingleText(vr: VRs.DcmVR) {
    vr == VRs.LT || vr == VRs.ST || vr == VRs.UT
  }

  predicate IsMultiText(vr: VRs.DcmVR) {
    vr.isString && !IsSingleText(vr)
  }

  predicate IsNumberVR(vr: VRs.DcmVR) {
    vr == VRs.US || vr == VRs.SS || vr == VRs.SL || vr == VRs.UL || vr == VRs.AT
  }

  /** `DcmElement.Create(tag, vr)`: an element with an empty value. */
  function NewElement(t: Tag, vr: VRs.DcmVR): (e: Item)
    ensures e.Element? && e.tag == t && e.vr == vr
  {
    var v := if IsSingleText(vr) || IsMultiText(vr) then Text("")
             else if IsNumberVR(vr) then Numbers([]) else Bytes([]);
    Element(t, vr, v, EndianIO.Little)
  }

  /** The values of a multi-valued string: none for the empty string,
      otherwise the '\'-separated pieces. */
  function ValuesOf(text: string): (vs: seq<string>)
    ensures forall i :: 0 <= i < |vs| ==> '\\' !in vs[i]
  {
    if text == "" then [] else
      Text.SplitPiecesHaveNoSeparator(text, '\\');
      Text.Split(text, '\\')
  }

  function JoinValues(vs: seq<string>): string {
    if vs == [] then "" else Text.Join(vs, '\\')
  }

  /** Values joined with '\' read back as themselves, unless the only value
      is empty (which joins to the empty string, that is, no values). */
  lemma ValuesRoundTrip(vs: seq<string>)
    requires forall i :: 0 <= i < |vs| ==> '\\' !in vs[i]
    requires vs != [""]
    ensures ValuesOf(JoinValues(vs)) == vs
  {
    if vs != [] {
      Text.SplitJoin(vs, '\\');
    }
  }

  /** A value string read back into values and joined again is unchanged. */
  lemma JoinValuesOf(text: string)
    ensures JoinValues(ValuesOf(text)) == text
  {
    if text != "" {
      Text.JoinSplit(text, '\\');
    }
  }

  /** `GetValueString`: the text of a string element, the numbers of a
      numeric element in decimal separated by '\'. The text form of binary
      values is not part of this model and is empty. */
  function ValueString(v: Value): string {
    match v
    case Text(s) => s
    case Numbers(ns) => JoinValues(NumberStrings(ns))
    case Bytes(_) => ""
  }

  function NumberStrings(ns: seq<int>): (ss: seq<string>)
    ensures |ss| == |ns|
  {
    if |ns| == 0 then [] else [Text.IntToString(ns[0])] + NumberStrings(ns[1..])
  }

  datatype DataError =
    | IncorrectVR          // "Tried to access element with incorrect VR"
    | ElementDoesNotExist  // "Element does not exist in Dataset"
    | IndexOutOfRange      // a value index past the last value
    | BadNumber            // a value string that does not parse as a number
    | ValueNotText         // setting a binary value from text

  /** `SetValueString`: a string element takes the text as it is; a numeric
      element parses each '\'-separated value; a binary element has no text
      form here. */
  function ParseValueString(current: Value, s: string): (r: Result<Value, DataError>)
    ensures r.Failure? <==> current.Bytes? || (current.Numbers? && ParseAll(ValuesOf(s)).None?)
    ensures r.Success? ==> r.value.Text? == current.Text? && r.value.Numbers? == current.Numbers?
    ensures r.Success? && current.Text? ==> ValueString(r.value) == s
    ensures r.Success? && current.Numbers? ==>
      |r.value.numbers| == |ValuesOf(s)| &&
      forall i :: 0 <= i < |ValuesOf(s)| ==> Text.ParseInt32(ValuesOf(s)[i]).Some? && Text.ParseInt32(ValuesOf(s)[i]).value == r.value.numbers[i]
  {
    ParseAllSound(ValuesOf(s));
    match current
    case Text(_) => Success(Text(s))
    case Numbers(_) =>
      var parsed := ParseAll(ValuesOf(s));
      if parsed.None? then Failure(BadNumber) else Success(Numbers(parsed.value))
    case Bytes(_) => Failure(ValueNotText)
  }

  function ParseAll(parts: seq<string>): (r: Option<seq<int>>)
    ensures r.Some? ==> |r.value| == |parts|
  {
    if |parts| == 0 then Some([])
    else
      var head := Text.ParseInt32(parts[0]);
      var tail := ParseAll(parts[1..]);
      if head.None? || tail.None? then None else Some([head.value as int] + tail.value)
  }

  /** Number `i` parsed is part `i` read as a number. */
  lemma {:induction false} ParseAllAt(parts: seq<string>, i: nat)
    requires ParseAll(parts).Some? && i < |parts|
    ensures Text.ParseInt32(parts[i]).Some? && Text.ParseInt32(parts[i]).value == ParseAll(parts).value[i]
    decreases i
  {
    var tail := parts[1..];
    var h := Text.ParseInt32(parts[0]);
    assert h.Some? && ParseAll(tail).Some?;
    assert ParseAll(parts).value == [h.value as int] + ParseAll(tail).value;
    if i > 0 {
      ParseAllAt(tail, i - 1);
      assert tail[i - 1] == parts[i];
    }
  }

  /** Parsing fails only on a part that does not read as a number: were
      every part a number, `ParseAllParses` would give a list. */
  lemma ParseAllFails(parts: seq<string>)
    requires ParseAll(parts).None?
    ensures exists j :: 0 <= j < |parts| && Text.ParseInt32(parts[j]).None?
  {
    if forall j :: 0 <= j < |parts| ==> Text.ParseInt32(parts[j]).Some? {
      var ns := seq(|parts|, j requires 0 <= j < |parts| => Text.ParseInt32(parts[j]).value as int);
      ParseAllParses(parts, ns);
      assert false;
    }
  }

  /** The numbers parsed are the parts read one by one, and parsing fails
      only on a part that does not read as a number. */
  lemma ParseAllSound(parts: seq<string>)
    ensures ParseAll(parts).Some? ==> forall i :: 0 <= i < |parts| ==>
      Text.ParseInt32(parts[i]).Some? && Text.ParseInt32(parts[i]).value == ParseAll(parts).value[i]
    ensures ParseAll(parts).None? ==> exists i :: 0 <= i < |parts| && Text.ParseInt32(parts[i]).None?
  {
    if ParseAll(parts).Some? {
      forall i | 0 <= i < |parts|
        ensures Text.ParseInt32(parts[i]).Some? && Text.ParseInt32(parts[i]).value == ParseAll(parts).value[i]
      {
        ParseAllAt(parts, i);
      }
    } else {
      ParseAllFails(parts);
    }
  }

  /** Parts that each parse give the list of their numbers. */
  lemma {:induction false} ParseAllParses(parts: seq<string>, ns: seq<int>)
    requires |parts| == |ns|
    requires forall i :: 0 <= i < |parts| ==> Text.ParseInt32(parts[i]).Some? && Text.ParseInt32(parts[i]).value == ns[i]
    ensures ParseAll(parts) == Some(ns)
    decreases |parts|
  {
    if |parts| > 0 {
      ParseAllParses(parts[1..], ns[1..]);
      assert ns == [ns[0]] + ns[1..];
    }
  }

  lemma {:induction false} NumberStringsAt(ns: seq<int>, i: nat)
    requires i < |ns|
    ensures NumberStrings(ns)[i] == Text.IntToString(ns[i])
    decreases i
  {
    if i > 0 {
      NumberStringsAt(ns[1..], i - 1);
    }
  }

  lemma ParseAllNumberStrings(ns: seq<int>)
    requires forall i :: 0 <= i < |ns| ==> -TWO_31 <= ns[i] < TWO_31
    ensures ParseAll(NumberStrings(ns)) == Some(ns)
  {
    var ss := NumberStrings(ns);
    forall i | 0 <= i < |ss| ensures Text.ParseInt32(ss[i]).Some? && Text.ParseInt32(ss[i]).value == ns[i] {
      NumberStringsAt(ns, i);
      Text.ParseIntToString(ns[i]);
    }
    ParseAllParses(ss, ns);
  }

  lemma IntStringHasNoBackslash(n: int)
    ensures '\\' !in Text.IntToString(n)
  {
    var s := Text.IntToString(n);
    if n < 0 {
      assert forall i :: 1 <= i < |s| ==> s[i] == Text.Digits(-n)[i - 1];
    }
  }

  /** The value string of a numeric element (32-bit values) parses back to
      the same numbers; the value string of a text element is its text. */
  lemma ValueStringRoundTrip(v: Value)
    requires v.Numbers? ==> forall i :: 0 <= i < |v.numbers| ==> -TWO_31 <= v.numbers[i] < TWO_31
    requires !v.Bytes?
    ensures ParseValueString(v, ValueString(v)) == Success(v)
  {
    if v.Numbers? {
      var ns := v.numbers;
      var ss := NumberStrings(ns);
      forall i | 0 <= i < |ss| ensures '\\' !in ss[i] {
        NumberStringsAt(ns, i);
        IntStringHasNoBackslash(ns[i]);
      }
      if |ss| == 1 {
        NumberStringsAt(ns, 0);
      }
      ValuesRoundTrip(ss);
      ParseAllNumberStrings(ns);
    }
  }

  // ------------------------------------------------------ the sorted table

  /** `SortedList<uint, DcmItem>`: strictly ascending tags, so each tag at
      most once. */
  predicate Sorted(items: seq<Item>) {
    forall i, j :: 0 <= i < j < |items| ==> Less(items[i].tag, items[j].tag)
  }

  /** Every item of a sorted table comes after its first item. */
  lemma SortedTail(items: seq<Item>)
    requires Sorted(items) && |items| > 0
    ensures Sorted(items[1..])
    ensures forall x :: x in items[1..] ==> Less(items[0].tag, x.tag)
  {
    forall x | x in items[1..] ensures Less(items[0].tag, x.tag) {
      var k :| 0 <= k < |items[1..]| && items[1..][k] == x;
      assert items[k + 1] == x;
    }
  }

  lemma SortedCons(a: Item, r: seq<Item>)
    requires Sorted(r)
    requires forall x :: x in r ==> Less(a.tag, x.tag)
    ensures Sorted([a] + r)
  {
    var s := [a] + r;
    forall i, j | 0 <= i < j < |s| ensures Less(s[i].tag, s[j].tag) {
      if i == 0 {
        assert s[j] == r[j - 1];
        assert s[j] in r;
      } else {
        assert s[i] == r[i - 1] && s[j] == r[j - 1];
      }
    }
  }

  function Tags(items: seq<Item>): (ts: set<Tag>)
  {
    set x | x in items :: x.tag
  }

  /** `GetItem`: `TryGetValue(tag.Card)`. */
  function GetItem(items: seq<Item>, t: Tag): (r: Option<Item>)
    ensures r.Some? ==> r.value.tag == t && r.value in items
    ensures r.None? <==> t !in Tags(items)
  {
    if |items| == 0 then None
    else if items[0].tag == t then Some(items[0])
    else
      assert Tags(items) == {items[0].tag} + Tags(items[1..]) by {
        assert items == [items[0]] + items[1..];
      }
      GetItem(items[1..], t)
  }

  /** `Contains`. */
  function Contains(items: seq<Item>, t: Tag): (b: bool)
    ensures b <==> exists x :: x in items && x.tag == t
  {
    GetItem(items, t).Some?
  }

  /** `GetElement`: only elements; a sequence under the tag gives null. */
  function GetElement(items: seq<Item>, t: Tag): (r: Option<Item>)
    ensures r.Some? ==> r.value.Element? && r.value.tag == t && r.value in items
    ensures r.None? <==> t !in Tags(items) || !GetItem(items, t).value.Element?
  {
    var i := GetItem(items, t);
    if i.Some? && i.value.Element? then i else None
  }

  /** In a sorted table the item found under a tag is the item with that
      tag. */
  lemma {:induction false} GetItemOfMember(items: seq<Item>, x: Item)
    requires Sorted(items) && x in items
    ensures GetItem(items, x.tag) == Some(x)
    decreases |items|
  {
    if items[0] != x {
      SortedTail(items);
      assert x in items[1..];
      GetItemOfMember(items[1..], x);
    }
  }

  /** Put `item` in the tag-ordered list, replacing the item with the same tag. */
  function Insert(items: seq<Item>, item: Item): (r: seq<Item>)
    ensures forall x :: x in r ==> x == item || x in items
    ensures item in r
    decreases |items|
  {
    if |items| == 0 then [item]
    else if Less(item.tag, items[0].tag) then [item] + items
    else if item.tag == items[0].tag then [item] + items[1..]
    else [items[0]] + Insert(items[1..], item)
  }

  lemma {:induction false} InsertSorted(items: seq<Item>, item: Item)
    requires Sorted(items)
    ensures Sorted(Insert(items, item))
    decreases |items|
  {
    if |items| > 0 {
      SortedTail(items);
      if Less(item.tag, items[0].tag) {
        SortedCons(item, items);
      } else if item.tag == items[0].tag {
        SortedCons(item, items[1..]);
      } else {
        InsertSorted(items[1..], item);
        SortedCons(items[0], Insert(items[1..], item));
      }
    }
  }

  /** After `AddItem` the item is found under its tag and every other tag
      finds what it found before. */
  lemma {:induction false} GetItemInsert(items: seq<Item>, item: Item, t: Tag)
    ensures GetItem(Insert(items, item), t) == if t == item.tag then Some(item) else GetItem(items, t)
    decreases |items|
  {
    if |items| > 0 && !Less(item.tag, items[0].tag) && item.tag != items[0].tag {
      GetItemInsert(items[1..], item, t);
    } else if |items| > 0 && Less(item.tag, items[0].tag) {
      assert Insert(items, item)[1..] == items;
    }
  }

  /** `Remove(tag)`: the table without that tag. */
  function Without(items: seq<Item>, t: Tag): (r: seq<Item>)
    ensures forall x :: x in r ==> x in items && x.tag != t
  {
    if |items| == 0 then []
    else if items[0].tag == t then Without(items[1..], t)
    else [items[0]] + Without(items[1..], t)
  }

  lemma {:induction false} WithoutSorted(items: seq<Item>, t: Tag)
    requires Sorted(items)
    ensures Sorted(Without(items, t))
    decreases |items|
  {
    if |items| > 0 {
      SortedTail(items);
      WithoutSorted(items[1..], t);
      if items[0].tag != t {
        SortedCons(items[0], Without(items[1..], t));
      }
    }
  }

  /** `Remove(tag)` deletes that tag and no other; it is a no-op when the
      tag is absent. */
  lemma {:induction false} GetItemWithout(items: seq<Item>, t: Tag, u: Tag)
    ensures GetItem(Without(items, t), u) == if u == t then None else GetItem(items, u)
    ensures t !in Tags(items) ==> Without(items, t) == items
    decreases |items|
  {
    if |items| > 0 {
      GetItemWithout(items[1..], t, u);
      assert items == [items[0]] + items[1..];
    }
  }

  /** `Remove(mask)`: the table without the items whose tags match. */
  function RemoveMasked(items: seq<Item>, m: TagMask): (r: seq<Item>)
    ensures forall x :: x in r ==> x in items && !IsMatch(m, x.tag)
  {
    if |items| == 0 then []
    else if IsMatch(m, items[0].tag) then RemoveMasked(items[1..], m)
    else [items[0]] + RemoveMasked(items[1..], m)
  }

  lemma {:induction false} RemoveMaskedSorted(items: seq<Item>, m: TagMask)
    requires Sorted(items)
    ensures Sorted(RemoveMasked(items, m))
    decreases |items|
  {
    if |items| > 0 {
      SortedTail(items);
      RemoveMaskedSorted(items[1..], m);
      if !IsMatch(m, items[0].tag) {
        SortedCons(items[0], RemoveMasked(items[1..], m));
      }
    }
  }

  /** `Remove(mask)` deletes exactly the items whose tags match. */
  lemma {:induction false} GetItemRemoveMasked(items: seq<Item>, m: TagMask, u: Tag)
    ensures GetItem(RemoveMasked(items, m), u) == if IsMatch(m, u) then None else GetItem(items, u)
    decreases |items|
  {
    if |items| > 0 {
      GetItemRemoveMasked(items[1..], m, u);
    }
  }

  /** `GetMaskedTags`: the tags that match, in table order. */
  function MaskedTags(items: seq<Item>, m: TagMask): (tags: seq<Tag>)
    ensures forall t :: t in tags <==> t in Tags(items) && IsMatch(m, t)
  {
    if |items| == 0 then []
    else
      assert Tags(items) == {items[0].tag} + Tags(items[1..]) by {
        assert items == [items[0]] + items[1..];
      }
      (if IsMatch(m, items[0].tag) then [items[0].tag] else []) + MaskedTags(items[1..], m)
  }

  /** `Merge`: `AddItem` of each incoming item in turn, each taking the byte
      order `e`. */
  function InsertAll(items: seq<Item>, incoming: seq<Item>, e: EndianIO.Endian): seq<Item>
    decreases |incoming|
  {
    if |incoming| == 0 then items
    else InsertAll(Insert(items, WithEndian(incoming[0], e)), incoming[1..], e)
  }

  lemma {:induction false} InsertAllSorted(items: seq<Item>, incoming: seq<Item>, e: EndianIO.Endian)
    requires Sorted(items)
    ensures Sorted(InsertAll(items, incoming, e))
    decreases |incoming|
  {
    if |incoming| > 0 {
      InsertSorted(items, WithEndian(incoming[0], e));
      InsertAllSorted(Insert(items, WithEndian(incoming[0], e)), incoming[1..], e);
    }
  }

  /** Merging the elements of another dataset (sorted, so each tag once):
      the incoming item wins on every tag it has, in the receiving byte
      order, and every other tag keeps what it had. */
  lemma {:induction false} GetItemInsertAll(items: seq<Item>, incoming: seq<Item>, e: EndianIO.Endian, u: Tag)
    requires Sorted(incoming)
    ensures GetItem(InsertAll(items, incoming, e), u) ==
            if u in Tags(incoming) then Some(WithEndian(GetItem(incoming, u).value, e)) else GetItem(items, u)
    decreases |incoming|
  {
    if |incoming| > 0 {
      var first := WithEndian(incoming[0], e);
      SortedTail(incoming);
      GetItemInsertAll(Insert(items, first), incoming[1..], e, u);
      GetItemInsert(items, first, u);
      assert Tags(incoming) == {incoming[0].tag} + Tags(incoming[1..]) by {
        assert incoming == [incoming[0]] + incoming[1..];
      }
      if u == incoming[0].tag {
        assert u !in Tags(incoming[1..]) by {
          forall x | x in incoming[1..] ensures x.tag != u {
            assert Less(incoming[0].tag, x.tag);
          }
        }
      }
    }
  }

  // -------------------------------------------------------- typed access

  /** `GetValueString`: null (`None`) when there is no element. */
  function GetValueString(items: seq<Item>, t: Tag): (r: Option<string>)
    ensures r.Some? <==> GetElement(items, t).Some?
  {
    var e := GetElement(items, t);
    if e.None? then None else Some(ValueString(e.value.value))
  }

  /** `GetString(tag, index, deflt)`: the index-th value of a string
      element, the default when the tag holds no element, an error for any
      other VR. A single-valued string element has one value whatever the
      index. */
  function GetString(items: seq<Item>, t: Tag, index: int, deflt: string): (r: Result<string, DataError>)
    ensures GetElement(items, t).None? ==> r == Success(deflt)
    ensures var e := GetElement(items, t);
            e.Some? ==> (r == Failure(IncorrectVR) <==> !e.value.value.Text? || !(IsSingleText(e.value.vr) || IsMultiText(e.value.vr)))
    ensures var e := GetElement(items, t);
            e.Some? ==> (r == Failure(IndexOutOfRange) <==>
              e.value.value.Text? && IsMultiText(e.value.vr) && !(0 <= index < |ValuesOf(e.value.value.text)|))
    ensures var e := GetElement(items, t);
            e.Some? && r.Success? ==> r.value == e.value.value.text || r.value in ValuesOf(e.value.value.text)
  {
    var e := GetElement(items, t);
    if e.None? then Success(deflt)
    else if !e.value.value.Text? then Failure(IncorrectVR)
    else if IsSingleText(e.value.vr) then Success(e.value.value.text)
    else if IsMultiText(e.value.vr) then
      var vs := ValuesOf(e.value.value.text);
      if 0 <= index < |vs| then Success(vs[index]) else Failure(IndexOutOfRange)
    else Failure(IncorrectVR)
  }

  /** `GetStringArray(tag, deflt)`. */
  function GetStringArray(items: seq<Item>, t: Tag, deflt: seq<string>): (r: Result<seq<string>, DataError>)
    ensures GetElement(items, t).None? ==> r == Success(deflt)
    ensures r.Failure? ==> r.error == IncorrectVR
    ensures var e := GetElement(items, t);
            e.Some? ==> (r.Failure? <==> !e.value.value.Text? || !(IsSingleText(e.value.vr) || IsMultiText(e.value.vr)))
    ensures var e := GetElement(items, t);
            e.Some? && r.Success? ==> JoinValues(r.value) == e.value.value.text
  {
    var e := GetElement(items, t);
    if e.None? then Success(deflt)
    else if !e.value.value.Text? then Failure(IncorrectVR)
    else if IsMultiText(e.value.vr) then JoinValuesOf(e.value.value.text); Success(ValuesOf(e.value.value.text))
    else if IsSingleText(e.value.vr) then Success([e.value.value.text])
    else Failure(IncorrectVR)
  }

  /** `GetInt32(tag, deflt)`: an IS element parses its value, an SL element
      gives its first value. */
  function GetInt32(items: seq<Item>, t: Tag, deflt: int32): (r: Result<int32, DataError>)
    ensures GetElement(items, t).None? ==> r == Success(deflt)
    ensures var e := GetElement(items, t);
            e.Some? ==> (r == Failure(IncorrectVR) <==>
              !(e.value.vr == VRs.IS && e.value.value.Text?) && !(e.value.vr == VRs.SL && e.value.value.Numbers?))
    ensures var e := GetElement(items, t);
            e.Some? && r.Success? && e.value.vr == VRs.IS ==> Text.ParseInt32(e.value.value.text) == Some(r.value)
    ensures var e := GetElement(items, t);
            e.Some? && r.Success? && e.value.vr == VRs.SL ==>
              e.value.value.Numbers? && |e.value.value.numbers| > 0 && r.value == e.value.value.numbers[0]
  {
    var e := GetElement(items, t);
    if e.None? then Success(deflt)
    else if e.value.vr == VRs.IS && e.value.value.Text? then
      var n := Text.ParseInt32(e.value.value.text);
      if n.None? then Failure(BadNumber) else Success(n.value)
    else if e.value.vr == VRs.SL && e.value.value.Numbers? then
      if |e.value.value.numbers| == 0 then Failure(IndexOutOfRange)
      else if -TWO_31 <= e.value.value.numbers[0] < TWO_31 then Success(e.value.value.numbers[0])
      else Failure(BadNumber)
    else Failure(IncorrectVR)
  }

  /** `GetUInt16(tag, deflt)`, through `GetUS`. */
  function GetUInt16(items: seq<Item>, t: Tag, deflt: uint16): (r: Result<uint16, DataError>)
    ensures GetElement(items, t).None? ==> r == Success(deflt)
    ensures var e := GetElement(items, t);
            e.Some? ==> (r == Failure(IncorrectVR) <==> !(e.value.vr == VRs.US && e.value.value.Numbers?))
    ensures var e := GetElement(items, t);
            e.Some? ==> (r == Failure(IndexOutOfRange) <==>
              e.value.vr == VRs.US && e.value.value.Numbers? && |e.value.value.numbers| == 0)
    ensures var e := GetElement(items, t);
            e.Some? && r.Success? ==>
              e.value.value.Numbers? && |e.value.value.numbers| > 0 && r.value == e.value.value.numbers[0]
  {
    var e := GetElement(items, t);
    if e.None? then Success(deflt)
    else if e.value.vr == VRs.US && e.value.value.Numbers? then
      if |e.value.value.numbers| == 0 then Failure(IndexOutOfRange)
      else if 0 <= e.value.value.numbers[0] < TWO_16 then Success(e.value.value.numbers[0])
      else Failure(BadNumber)
    else Failure(IncorrectVR)
  }

  /** `GetString` on a present element reads one value of what
      `GetStringArray` gives: value `index` of a multi-valued string, the
      whole text of a single-valued one. */
  lemma GetStringOfArray(items: seq<Item>, t: Tag, index: int, s: string, ss: seq<string>)
    requires GetElement(items, t).Some? && GetString(items, t, index, s).Success?
    ensures GetStringArray(items, t, ss).Success?
    ensures var e := GetElement(items, t).value;
            var vs := GetStringArray(items, t, ss).value;
            if IsSingleText(e.vr) then vs == [GetString(items, t, index, s).value]
            else 0 <= index < |vs| && GetString(items, t, index, s).value == vs[index]
  {
  }

  /** Every typed getter gives its default exactly when the tag holds no
      element; when it holds one of a type the getter does not serve, the
      getter fails with `IncorrectVR`. */
  lemma GettersDefault(items: seq<Item>, t: Tag, s: string, ss: seq<string>, n: int32, w: uint16, index: int)
    ensures GetElement(items, t).None? ==>
      GetString(items, t, index, s) == Success(s) && GetStringArray(items, t, ss) == Success(ss) &&
      GetInt32(items, t, n) == Success(n) && GetUInt16(items, t, w) == Success(w) &&
      GetValueString(items, t) == None
    ensures GetElement(items, t).Some? && GetElement(items, t).value.vr == VRs.OB ==>
      GetString(items, t, index, s) == Failure(IncorrectVR) &&
      GetStringArray(items, t, ss) == Failure(IncorrectVR) &&
      GetInt32(items, t, n) == Failure(IncorrectVR) && GetUInt16(items, t, w) == Failure(IncorrectVR)
  {
  }

  // ---------------------------------------------------------- setters

  /** A string element: a string VR holding text. */
  predicate IsTextElement(e: Item) {
    e.Element? && e.value.Text? && (IsSingleText(e.vr) || IsMultiText(e.vr))
  }

  /** `SetString(tag, value)` on the table: only a string element takes the
      value; an absent element (or a sequence under the tag) is an error, as
      is any other VR. */
  function SetStringIn(items: seq<Item>, t: Tag, value: string): Result<seq<Item>, DataError> {
    var e := GetElement(items, t);
    if e.None? then Failure(ElementDoesNotExist)
    else if !IsTextElement(e.value) then Failure(IncorrectVR)
    else Success(Insert(items, e.value.(value := Text(value))))
  }

  /** `SetStringArray(tag, values)`: only a multi-valued string element
      takes the values, joined with a backslash. */
  function SetStringArrayIn(items: seq<Item>, t: Tag, values: seq<string>): Result<seq<Item>, DataError> {
    var e := GetElement(items, t);
    if e.None? then Failure(ElementDoesNotExist)
    else if !(IsTextElement(e.value) && IsMultiText(e.value.vr)) then Failure(IncorrectVR)
    else Success(Insert(items, e.value.(value := Text(JoinValues(values)))))
  }

  /** What `SetString` stores reads back: `GetStringArray` gives the
      values of the text (the whole text for a single-valued element),
      `GetValueString` the text itself, and no other tag changes. */
  lemma SetStringThenGet(items: seq<Item>, t: Tag, value: string, deflt: seq<string>, u: Tag)
    requires SetStringIn(items, t, value).Success?
    ensures var after := SetStringIn(items, t, value).value;
      GetStringArray(after, t, deflt) ==
        Success(if IsMultiText(GetElement(items, t).value.vr) then ValuesOf(value) else [value]) &&
      GetValueString(after, t) == Some(value) &&
      (u != t ==> GetItem(after, u) == GetItem(items, u))
  {
    var e := GetElement(items, t).value;
    GetItemInsert(items, e.(value := Text(value)), t);
    GetItemInsert(items, e.(value := Text(value)), u);
  }

  /** `SetStringArray` then `GetStringArray` gives the values back when none
      contains the separator (and they are not a single empty value). */
  lemma SetStringArrayThenGet(items: seq<Item>, t: Tag, values: seq<string>, deflt: seq<string>)
    requires SetStringArrayIn(items, t, values).Success?
    requires forall i :: 0 <= i < |values| ==> '\\' !in values[i]
    requires values != [""]
    ensures GetStringArray(SetStringArrayIn(items, t, values).value, t, deflt) == Success(values)
  {
    var e := GetElement(items, t).value;
    GetItemInsert(items, e.(value := Text(JoinValues(values))), t);
    ValuesRoundTrip(values);
  }

  /** The element `AddElementWithValue(tag, int)` stores: IS as decimal
      text, SL as a number. */
  function Int32Element(t: Tag, vr: VRs.DcmVR, value: int32, e: EndianIO.Endian): Item {
    if vr == VRs.IS then Element(t, VRs.IS, Text(Text.IntToString(value)), e)
    else Element(t, vr, Numbers([value]), e)
  }

  /** `AddElementWithValue(tag, int)` then `GetInt32` gives the value back. */
  lemma Int32RoundTrip(items: seq<Item>, t: Tag, vr: VRs.DcmVR, value: int32, e: EndianIO.Endian, deflt: int32)
    requires vr == VRs.IS || vr == VRs.SL
    ensures GetInt32(Insert(items, Int32Element(t, vr, value, e)), t, deflt) == Success(value)
  {
    GetItemInsert(items, Int32Element(t, vr, value, e), t);
    if vr == VRs.IS {
      Text.ParseIntToString(value);
    }
  }

  /** `AddElementWithValue(tag, ushort)` then `GetUInt16` gives the value
      back. */
  lemma UInt16RoundTrip(items: seq<Item>, t: Tag, value: uint16, e: EndianIO.Endian, deflt: uint16)
    ensures GetUInt16(Insert(items, Element(t, VRs.US, Numbers([value]), e)), t, deflt) == Success(value)
  {
    GetItemInsert(items, Element(t, VRs.US, Numbers([value]), e), t);
  }

  /** `AddElementWithValue(tag, string)` then `GetString(tag, 0)` gives the
      string back: whole for a single-valued VR, and for a multi-valued VR
      when it is one non-empty value. */
  lemma StringRoundTrip(items: seq<Item>, t: Tag, vr: VRs.DcmVR, value: string, e: EndianIO.Endian, deflt: string)
    requires vr.isString
    requires IsSingleText(vr) || (value != "" && '\\' !in value)
    ensures GetString(Insert(items, Element(t, vr, Text(value), e)), t, 0, deflt) == Success(value)
  {
    GetItemInsert(items, Element(t, vr, Text(value), e), t);
    if !IsSingleText(vr) {
      ValuesRoundTrip([value]);
      assert JoinValues([value]) == value;
    }
  }

  /** Adding under a tag twice keeps only the second item. */
  lemma {:induction false} InsertReplace(items: seq<Item>, a: Item, b: Item)
    requires a.tag == b.tag
    ensures Insert(Insert(items, a), b) == Insert(items, b)
    decreases |items|
  {
    if |items| > 0 && !Less(a.tag, items[0].tag) && a.tag != items[0].tag {
      InsertReplace(items[1..], a, b);
    }
  }

  /** Adding an item after every item of a table appends it. */
  lemma {:induction false} InsertLast(items: seq<Item>, x: Item)
    requires forall y :: y in items ==> Less(y.tag, x.tag)
    ensures Insert(items, x) == items + [x]
    decreases |items|
  {
    if |items| > 0 {
      assert items[0] in items;
      InsertLast(items[1..], x);
      assert items == [items[0]] + items[1..];
    }
  }

  /** `Clone`: re-adding the items of a sorted table, all already in the byte
      order `e`, into an empty table rebuilds the table. */
  lemma {:induction false} InsertAllRebuilds(done: seq<Item>, rest: seq<Item>, e: EndianIO.Endian)
    requires Sorted(done + rest)
    requires forall x :: x in rest ==> x.endian == e
    ensures InsertAll(done, rest, e) == done + rest
    decreases |rest|
  {
    if |rest| > 0 {
      var x := rest[0];
      assert WithEndian(x, e) == x by {
        assert x in rest;
      }
      forall y | y in done ensures Less(y.tag, x.tag) {
        var i :| 0 <= i < |done| && done[i] == y;
        assert (done + rest)[i] == y && (done + rest)[|done|] == x;
      }
      InsertLast(done, x);
      assert (done + [x]) + rest[1..] == done + rest;
      forall y | y in rest[1..] ensures y.endian == e {
        assert y in rest;
      }
      InsertAllRebuilds(done + [x], rest[1..], e);
    }
  }

  const ReferencedSOPClassUID := Tag(0x0008, 0x1150)
  const ReferencedSOPInstanceUID := Tag(0x0008, 0x1155)

  /** The sequence item `AddReferenceSequenceItem` appends: a dataset with
      the two UI elements. */
  function ReferenceItem(classUid: string, instUid: string): (r: SequenceItem)
    ensures Sorted(r.items)
    ensures GetValueString(r.items, ReferencedSOPClassUID) == Some(classUid)
    ensures GetValueString(r.items, ReferencedSOPInstanceUID) == Some(instUid)
  {
    SequenceItem(TS.ExplicitVRLittleEndian,
                 [Element(ReferencedSOPClassUID, VRs.UI, Text(classUid), EndianIO.Little),
                  Element(ReferencedSOPInstanceUID, VRs.UI, Text(instUid), EndianIO.Little)])
  }

  /** The table `AddElementWithValueString(tag, vr, s)` leaves when the
      dataset's byte order is `e`: the element of that VR holding the parsed
      text, or the empty element when the text does not parse (the element
      is added before its value is set). */
  function AddedWithValueString(items: seq<Item>, t: Tag, vr: VRs.DcmVR, s: string, e: EndianIO.Endian): seq<Item>
  {
    var empty := WithEndian(NewElement(t, vr), e);
    match ParseValueString(empty.value, s)
    case Success(v) => Insert(items, empty.(value := v))
    case Failure(_) => Insert(items, empty)
  }

  /** After `AddElementWithValueString` the tag holds an element of the
      requested VR, a string VR reads back the text as given, and every
      other tag is as before, whether or not the tag was present. */
  lemma AddedWithValueStringGet(items: seq<Item>, t: Tag, vr: VRs.DcmVR, s: string, e: EndianIO.Endian, u: Tag)
    ensures var r := AddedWithValueString(items, t, vr, s, e);
      GetElement(r, t).Some? && GetElement(r, t).value.vr == vr &&
      (vr.isString ==> GetValueString(r, t) == Some(s)) &&
      (u != t ==> GetItem(r, u) == GetItem(items, u))
  {
    var empty := WithEndian(NewElement(t, vr), e);
    match ParseValueString(empty.value, s)
    case Success(v) =>
      GetItemInsert(items, empty.(value := v), t);
      GetItemInsert(items, empty.(value := v), u);
    case Failure(_) =>
      GetItemInsert(items, empty, t);
      GetItemInsert(items, empty, u);
  }

  /** Adding under a tag the table already holds replaces, so the table
      keeps its length; adding a new tag grows it by one. */
  lemma {:induction false} InsertLength(items: seq<Item>, x: Item)
    requires Sorted(items)
    ensures |Insert(items, x)| == if x.tag in Tags(items) then |items| else |items| + 1
    decreases |items|
  {
    if |items| > 0 {
      SortedTail(items);
      assert Tags(items) == {items[0].tag} + Tags(items[1..]) by {
        assert items == [items[0]] + items[1..];
      }
      if Less(x.tag, items[0].tag) {
        assert x.tag !in Tags(items[1..]);
      } else if x.tag != items[0].tag {
        InsertLength(items[1..], x);
      }
    }
  }

  /** Adding an item a sorted table already holds changes nothing. */
  lemma {:induction false} InsertMember(items: seq<Item>, x: Item)
    requires Sorted(items) && x in items
    ensures Insert(items, x) == items
    decreases |items|
  {
    assert items == [items[0]] + items[1..];
    if items[0] != x {
      SortedTail(items);
      assert x in items[1..];
      assert Less(items[0].tag, x.tag);
      assert !Less(x.tag, items[0].tag) && x.tag != items[0].tag;
      InsertMember(items[1..], x);
      assert Insert(items, x) == [items[0]] + Insert(items[1..], x);
    } else {
      assert Insert(items, x) == [x] + items[1..];
    }
  }

  /** `Remove(tag)` never grows the table. */
  lemma {:induction false} WithoutLength(items: seq<Item>, t: Tag)
    ensures |Without(items, t)| <= |items|
    decreases |items|
  {
    if |items| > 0 {
      WithoutLength(items[1..], t);
    }
  }

  // ------------------------------------------------------- write lengths

  /** The bytes a group-length element takes: tag, VR, reserved and a
      4-byte value in explicit VR; tag, length and value in implicit VR.
      Both come to 12. */
  function GroupLengthSize(explicitVR: bool): (n: nat)
    ensures n == 12
  {
    if explicitVR then 4 + 2 + 2 + 4 else 4 + 4 + 4
  }

  /** The sum `CalculateWriteLength` accumulates, before 32-bit wrap-around:
      every item except group-length elements (element 0x0000), plus one
      group-length element whenever the group differs from the group of the
      last item counted (starting from 0xFFFF). */
  ghost function WriteLengthFrom(items: seq<Item>, lengths: Item -> nat, group: uint16,
                                 groupLengths: bool, explicitVR: bool): nat
    decreases |items|
  {
    if |items| == 0 then 0
    else if items[0].tag.element == 0 then WriteLengthFrom(items[1..], lengths, group, groupLengths, explicitVR)
    else
      var header := if items[0].tag.group != group && groupLengths then GroupLengthSize(explicitVR) else 0;
      header + lengths(items[0]) +
      WriteLengthFrom(items[1..], lengths, items[0].tag.group, groupLengths, explicitVR)
  }

  /** The groups that have at least one item other than the group length. */
  ghost function CountedGroups(items: seq<Item>): set<uint16> {
    set x | x in items && x.tag.element != 0 :: x.tag.group
  }

  function SumLengths(items: seq<Item>, lengths: Item -> nat): nat
    decreases |items|
  {
    if |items| == 0 then 0
    else (if items[0].tag.element == 0 then 0 else lengths(items[0])) + SumLengths(items[1..], lengths)
  }

  /** The group-length elements `CalculateWriteLength` counts: one each
      time the group of a counted item differs from the one before. */
  ghost function GroupChanges(items: seq<Item>, group: uint16): nat
    decreases |items|
  {
    if |items| == 0 then 0
    else if items[0].tag.element == 0 then GroupChanges(items[1..], group)
    else (if items[0].tag.group != group then 1 else 0) + GroupChanges(items[1..], items[0].tag.group)
  }

  lemma {:induction false} WriteLengthSplit(items: seq<Item>, lengths: Item -> nat, group: uint16,
                                           groupLengths: bool, explicitVR: bool)
    ensures WriteLengthFrom(items, lengths, group, groupLengths, explicitVR) ==
            SumLengths(items, lengths) + (if groupLengths then 12 * GroupChanges(items, group) else 0)
    decreases |items|
  {
    if |items| > 0 {
      if items[0].tag.element == 0 {
        WriteLengthSplit(items[1..], lengths, group, groupLengths, explicitVR);
      } else {
        WriteLengthSplit(items[1..], lengths, items[0].tag.group, groupLengths, explicitVR);
      }
    }
  }

  /** In a sorted table, the group changes are the distinct groups. */
  lemma {:induction false} GroupChangesAreGroups(items: seq<Item>, group: uint16)
    requires Sorted(items)
    requires group == 0xFFFF || forall x :: x in items ==> x.tag.group >= group
    requires forall x :: x in items ==> x.tag.group != 0xFFFF
    ensures GroupChanges(items, group) == |CountedGroups(items) - {group}|
    decreases |items|
  {
    if |items| > 0 {
      var rest := items[1..];
      var g0 := items[0].tag.group;
      RestOfSorted(items, group);
      CountedGroupsCons(items);
      if items[0].tag.element == 0 {
        GroupChangesAreGroups(rest, group);
      } else {
        GroupChangesAreGroups(rest, g0);
        GroupSetStep(CountedGroups(rest), g0, group);
      }
    }
  }

  /** What the tail of a sorted table inherits from the whole: order, the
      group bounds, and that a counted first item's group is not counted
      again when it differs from the current one. */
  lemma RestOfSorted(items: seq<Item>, group: uint16)
    requires Sorted(items) && |items| > 0
    requires group == 0xFFFF || forall x :: x in items ==> x.tag.group >= group
    requires forall x :: x in items ==> x.tag.group != 0xFFFF
    ensures Sorted(items[1..])
    ensures group == 0xFFFF || forall x :: x in items[1..] ==> x.tag.group >= group
    ensures forall x :: x in items[1..] ==> x.tag.group >= items[0].tag.group
    ensures forall x :: x in items[1..] ==> x.tag.group != 0xFFFF
    ensures items[0].tag.group != group && items[0].tag.element != 0 ==> group !in CountedGroups(items[1..])
  {
    var rest := items[1..];
    SortedTail(items);
    assert forall x :: x in rest ==> x in items;
    if items[0].tag.group != group && items[0].tag.element != 0 {
      forall x | x in rest && x.tag.element != 0 ensures x.tag.group != group {
        assert Less(items[0].tag, x.tag);
      }
    }
  }

  /** In a sorted table without items in group 0xFFFF, `CalculateWriteLength`
      is the sum of the item lengths (group lengths excluded) plus 12 bytes
      per group when group lengths are written. */
  lemma WriteLengthCountsGroups(items: seq<Item>, lengths: Item -> nat, groupLengths: bool, explicitVR: bool)
    requires Sorted(items)
    requires forall x :: x in items ==> x.tag.group != 0xFFFF
    ensures WriteLengthFrom(items, lengths, 0xFFFF, groupLengths, explicitVR) ==
            SumLengths(items, lengths) + (if groupLengths then 12 * |CountedGroups(items)| else 0)
  {
    WriteLengthSplit(items, lengths, 0xFFFF, groupLengths, explicitVR);
    GroupChangesAreGroups(items, 0xFFFF);
    assert CountedGroups(items) - {0xFFFF} == CountedGroups(items);
  }

  lemma CountedGroupsCons(items: seq<Item>)
    requires |items| > 0
    ensures CountedGroups(items) ==
            CountedGroups(items[1..]) + (if items[0].tag.element != 0 then {items[0].tag.group} else {})
  {
    assert items == [items[0]] + items[1..];
  }

  /** Counting one more group `g0` after the current group. */
  lemma GroupSetStep(later: set<uint16>, g0: uint16, group: uint16)
    requires group !in later || group == g0
    ensures g0 != group ==> |(later + {g0}) - {group}| == |later - {g0}| + 1
    ensures g0 == group ==> (later + {g0}) - {group} == later - {g0}
  {
    if g0 != group {
      assert (later + {g0}) - {group} == (later - {g0}) + {g0};
    }
  }

  // ------------------------------------------------ transfer syntax

  /** `SetInternalTransferSyntax` applied to the items of a dataset: every
      element and fragment sequence takes the byte order, and every
      sequence takes it too and passes the syntax into its items' datasets. */
  function WithSyntax(items: seq<Item>, ts: TS.DcmTS): (r: seq<Item>)
    ensures |r| == |items|
    ensures forall k :: 0 <= k < |r| ==> r[k].tag == items[k].tag
    decreases items, 1
  {
    if |items| == 0 then []
    else [ItemWithSyntax(items[0], ts)] + WithSyntax(items[1..], ts)
  }

  function ItemWithSyntax(item: Item, ts: TS.DcmTS): (r: Item)
    ensures r.tag == item.tag
    decreases item, 2
  {
    match item
    case Element(t, vr, v, _) => Element(t, vr, v, ts.endian)
    case FragmentSequence(t, vr, _, o, f) => FragmentSequence(t, vr, ts.endian, o, f)
    case ItemSequence(t, _, entries) => ItemSequence(t, ts.endian, EntriesWithSyntax(entries, ts))
  }

  function EntriesWithSyntax(entries: seq<SequenceItem>, ts: TS.DcmTS): (r: seq<SequenceItem>)
    ensures |r| == |entries|
    decreases entries, 0
  {
    if |entries| == 0 then []
    else [SequenceItem(ts, WithSyntax(entries[0].items, ts))] + EntriesWithSyntax(entries[1..], ts)
  }

  /** Every item, at every depth, is in the byte order of `ts`, and every
      nested dataset carries the syntax `ts`. */
  predicate AllInSyntax(items: seq<Item>, ts: TS.DcmTS)
    decreases items, 1
  {
    forall k :: 0 <= k < |items| ==> ItemInSyntax(items[k], ts)
  }

  predicate ItemInSyntax(item: Item, ts: TS.DcmTS)
    decreases item, 0
  {
    item.endian == ts.endian &&
    (item.ItemSequence? ==>
      forall j :: 0 <= j < |item.entries| ==>
        item.entries[j].syntax == ts && AllInSyntax(item.entries[j].items, ts))
  }

  lemma {:induction false} WithSyntaxReaches(items: seq<Item>, ts: TS.DcmTS)
    ensures AllInSyntax(WithSyntax(items, ts), ts)
    decreases items, 1
  {
    if |items| > 0 {
      ItemWithSyntaxReaches(items[0], ts);
      WithSyntaxReaches(items[1..], ts);
      var r := WithSyntax(items, ts);
      assert forall k :: 1 <= k < |r| ==> r[k] == WithSyntax(items[1..], ts)[k - 1];
    }
  }

  lemma {:induction false} ItemWithSyntaxReaches(item: Item, ts: TS.DcmTS)
    ensures ItemInSyntax(ItemWithSyntax(item, ts), ts)
    decreases item, 0
  {
    if item.ItemSequence? {
      EntriesWithSyntaxReach(item.entries, ts);
    }
  }

  lemma {:induction false} EntriesWithSyntaxReach(entries: seq<SequenceItem>, ts: TS.DcmTS)
    ensures forall j :: 0 <= j < |entries| ==>
              EntriesWithSyntax(entries, ts)[j].syntax == ts &&
              AllInSyntax(EntriesWithSyntax(entries, ts)[j].items, ts)
    decreases entries, 2
  {
    if |entries| > 0 {
      WithSyntaxReaches(entries[0].items, ts);
      EntriesWithSyntaxReach(entries[1..], ts);
      var r := EntriesWithSyntax(entries, ts);
      assert forall j :: 1 <= j < |r| ==> r[j] == EntriesWithSyntax(entries[1..], ts)[j - 1];
    }
  }

  /** Setting the syntax twice is setting the second one. */
  lemma {:induction false} WithSyntaxTwice(items: seq<Item>, a: TS.DcmTS, b: TS.DcmTS)
    ensures WithSyntax(WithSyntax(items, a), b) == WithSyntax(items, b)
    decreases items, 1
  {
    if |items| > 0 {
      ItemWithSyntaxTwice(items[0], a, b);
      WithSyntaxTwice(items[1..], a, b);
      assert WithSyntax(items, a)[1..] == WithSyntax(items[1..], a);
    }
  }

  lemma {:induction false} ItemWithSyntaxTwice(item: Item, a: TS.DcmTS, b: TS.DcmTS)
    ensures ItemWithSyntax(ItemWithSyntax(item, a), b) == ItemWithSyntax(item, b)
    decreases item, 0
  {
    if item.ItemSequence? {
      EntriesWithSyntaxTwice(item.entries, a, b);
    }
  }

  lemma {:induction false} EntriesWithSyntaxTwice(entries: seq<SequenceItem>, a: TS.DcmTS, b: TS.DcmTS)
    ensures EntriesWithSyntax(EntriesWithSyntax(entries, a), b) == EntriesWithSyntax(entries, b)
    decreases entries, 2
  {
    if |entries| > 0 {
      WithSyntaxTwice(entries[0].items, a, b);
      EntriesWithSyntaxTwice(entries[1..], a, b);
      assert EntriesWithSyntax(entries, a)[1..] == EntriesWithSyntax(entries[1..], a);
    }
  }

  const PixelData := Tag(0x7FE0, 0x0010)

  /** The steps `ChangeTransferSyntax` takes. `Decode(ts)` and `Encode(ts)`
      run the codec registered for `ts` (outside this model);
      `CopyFrames` moves every frame unchanged; `SetSyntax(ts)` is
      `SetInternalTransferSyntax`. */
  datatype Step = Decode(codec: TS.DcmTS) | Encode(codec: TS.DcmTS) | CopyFrames | SetSyntax(ts: TS.DcmTS)

  /** What `ChangeTransferSyntax(to)` does to a dataset in `from`, with or
      without pixel data: nothing for the same syntax; between two
      encapsulated syntaxes, first a full change to Explicit VR Little
      Endian; then a decode, an encode or a plain copy of the frames; then
      the new syntax. */
  function ChangePlan(from: TS.DcmTS, to: TS.DcmTS, hasPixelData: bool): (plan: seq<Step>)
    decreases if to.isEncapsulated then 1 else 0
  {
    if from == to then []
    else
      var (prefix, source) :=
        if from.isEncapsulated && to.isEncapsulated
        then (ChangePlan(from, TS.ExplicitVRLittleEndian, hasPixelData), TS.ExplicitVRLittleEndian)
        else ([], from);
      var frames :=
        if !hasPixelData then []
        else if source.isEncapsulated then [Decode(source)]
        else if to.isEncapsulated then [Encode(to)]
        else [CopyFrames];
      prefix + frames + [SetSyntax(to)]
  }

  /** A change to the same syntax does nothing and any other change ends
      with the new syntax; the codec runs at most once in each direction,
      and an encapsulated to encapsulated change decodes with the old codec
      and encodes with the new one, through Explicit VR Little Endian. */
  lemma ChangePlanShapes(from: TS.DcmTS, to: TS.DcmTS, hasPixelData: bool)
    ensures from == to <==> ChangePlan(from, to, hasPixelData) == []
    ensures from != to ==> ChangePlan(from, to, hasPixelData)[|ChangePlan(from, to, hasPixelData)| - 1] == SetSyntax(to)
    ensures from != to && from.isEncapsulated && to.isEncapsulated && hasPixelData ==>
      ChangePlan(from, to, hasPixelData) ==
        [Decode(from), SetSyntax(TS.ExplicitVRLittleEndian), Encode(to), SetSyntax(to)]
    ensures from != to && !from.isEncapsulated && !to.isEncapsulated && hasPixelData ==>
      ChangePlan(from, to, hasPixelData) == [CopyFrames, SetSyntax(to)]
    ensures from != to && from.isEncapsulated && !to.isEncapsulated && hasPixelData ==>
      ChangePlan(from, to, hasPixelData) == [Decode(from), SetSyntax(to)]
    ensures from != to && !from.isEncapsulated && to.isEncapsulated && hasPixelData ==>
      ChangePlan(from, to, hasPixelData) == [Encode(to), SetSyntax(to)]
    ensures from != to && !hasPixelData ==>
      ChangePlan(from, to, hasPixelData) ==
        (if from.isEncapsulated && to.isEncapsulated then [SetSyntax(TS.ExplicitVRLittleEndian)] else []) +
        [SetSyntax(to)]
  {
    assert !TS.ExplicitVRLittleEndian.isEncapsulated;
  }

  // ---------------------------------------------------- the dataset class

  class DcmDataset {
    var items: seq<Item>
    var transferSyntax: TS.DcmTS

    /** The table is sorted by tag and every item is in the dataset's byte
        order (`AddItem` and `SetInternalTransferSyntax` see to both). */
    ghost predicate Valid()
      reads this
    {
      Sorted(items) && forall x :: x in items ==> x.endian == transferSyntax.endian
    }

    constructor (ts: TS.DcmTS)
      ensures Valid() && items == [] && transferSyntax == ts
    {
      items := [];
      transferSyntax := ts;
    }

    /** `AddItem`: replaces any item with the same tag and puts the item in
        the dataset's byte order. */
    method AddItem(item: Item)
      requires Valid()
      modifies this
      ensures Valid() && transferSyntax == old(transferSyntax)
      ensures items == Insert(old(items), WithEndian(item, transferSyntax.endian))
      ensures GetItem(items, item.tag) == Some(WithEndian(item, transferSyntax.endian))
      ensures forall u :: u != item.tag ==> GetItem(items, u) == GetItem(old(items), u)
    {
      var stored := WithEndian(item, transferSyntax.endian);
      InsertSorted(items, stored);
      forall u ensures GetItem(Insert(items, stored), u) == if u == item.tag then Some(stored) else GetItem(items, u) {
        GetItemInsert(items, stored, u);
      }
      items := Insert(items, stored);
    }

    /** `Remove(tag)`. */
    method Remove(t: Tag)
      requires Valid()
      modifies this
      ensures Valid() && transferSyntax == old(transferSyntax)
      ensures items == Without(old(items), t)
      ensures GetItem(items, t) == None
      ensures forall u :: u != t ==> GetItem(items, u) == GetItem(old(items), u)
    {
      WithoutSorted(items, t);
      forall u ensures GetItem(Without(items, t), u) == if u == t then None else GetItem(items, u) {
        GetItemWithout(items, t, u);
      }
      items := Without(items, t);
    }

    /** `Remove(mask)`: walks the list by index, stepping back after each
        removal so that no item is skipped. */
    method RemoveMatching(m: TagMask)
      requires Valid()
      modifies this
      ensures Valid() && transferSyntax == old(transferSyntax)
      ensures items == RemoveMasked(old(items), m)
      ensures forall u :: GetItem(items, u) == if IsMatch(m, u) then None else GetItem(old(items), u)
    {
      RemoveMaskedSorted(items, m);
      forall u ensures GetItem(RemoveMasked(items, m), u) == if IsMatch(m, u) then None else GetItem(items, u) {
        GetItemRemoveMasked(items, m, u);
      }
      var s := RemoveMatchingFrom(items, m);
      items := s;
    }

    /** `Merge(other)`: every item of the other dataset, in its order,
        through `AddItem`. */
    method Merge(other: seq<Item>)
      requires Valid()
      modifies this
      ensures Valid() && transferSyntax == old(transferSyntax)
      ensures items == InsertAll(old(items), other, transferSyntax.endian)
    {
      ghost var want := InsertAll(items, other, transferSyntax.endian);
      for k := 0 to |other|
        invariant Valid() && transferSyntax == old(transferSyntax)
        invariant InsertAll(items, other[k..], transferSyntax.endian) == want
      {
        assert other[k..][1..] == other[k + 1..];
        AddItem(other[k]);
      }
    }

    /** `SetString(tag, value)`: an error leaves the dataset as it was. */
    method SetString(t: Tag, value: string) returns (err: Option<DataError>)
      requires Valid()
      modifies this
      ensures Valid() && transferSyntax == old(transferSyntax)
      ensures SetStringIn(old(items), t, value).Success? ==>
        err == None && items == SetStringIn(old(items), t, value).value
      ensures SetStringIn(old(items), t, value).Failure? ==>
        err == Some(SetStringIn(old(items), t, value).error) && items == old(items)
    {
      var e := GetElement(items, t);
      if e.None? {
        return Some(ElementDoesNotExist);
      }
      if !IsTextElement(e.value) {
        return Some(IncorrectVR);
      }
      var stored := e.value.(value := Text(value));
      InsertSorted(items, stored);
      items := Insert(items, stored);
      return None;
    }

    /** `SetStringArray(tag, values)`: multi-valued string elements only. */
    method SetStringArray(t: Tag, values: seq<string>) returns (err: Option<DataError>)
      requires Valid()
      modifies this
      ensures Valid() && transferSyntax == old(transferSyntax)
      ensures SetStringArrayIn(old(items), t, values).Success? ==>
        err == None && items == SetStringArrayIn(old(items), t, values).value
      ensures SetStringArrayIn(old(items), t, values).Failure? ==>
        err == Some(SetStringArrayIn(old(items), t, values).error) && items == old(items)
    {
      var e := GetElement(items, t);
      if e.None? {
        return Some(ElementDoesNotExist);
      }
      if !(IsTextElement(e.value) && IsMultiText(e.value.vr)) {
        return Some(IncorrectVR);
      }
      var stored := e.value.(value := Text(JoinValues(values)));
      InsertSorted(items, stored);
      items := Insert(items, stored);
      return None;
    }

    /** `AddElement(tag, vr)`: a new empty element replaces whatever the
        tag held; always true. */
    method AddElement(t: Tag, vr: VRs.DcmVR) returns (added: bool)
      requires Valid()
      modifies this
      ensures Valid() && transferSyntax == old(transferSyntax)
      ensures added
      ensures items == Insert(old(items), WithEndian(NewElement(t, vr), transferSyntax.endian))
    {
      AddItem(NewElement(t, vr));
      return true;
    }

    /** `AddElementWithValue(tag, string)`, with `vr` the tag's dictionary
        VR: only a string VR is accepted. An empty string is not stored,
        which leaves the new element's empty text. */
    method AddElementWithString(t: Tag, vr: VRs.DcmVR, value: string) returns (r: Result<bool, DataError>)
      requires Valid()
      modifies this
      ensures Valid() && transferSyntax == old(transferSyntax)
      ensures !vr.isString ==> r == Failure(IncorrectVR) && items == old(items)
      ensures vr.isString ==>
        r == Success(true) && items == Insert(old(items), Element(t, vr, Text(value), transferSyntax.endian))
    {
      if !vr.isString {
        return Failure(IncorrectVR);
      }
      var added := AddElement(t, vr);
      ghost var empty := WithEndian(NewElement(t, vr), transferSyntax.endian);
      if value != "" {
        GetItemInsert(old(items), empty, t);
        var err := SetString(t, value);
        InsertReplace(old(items), empty, Element(t, vr, Text(value), transferSyntax.endian));
      }
      return Success(added);
    }

    /** `AddElementWithValue(tag, ushort)`: the tag's VR must be US. */
    method AddElementWithUInt16(t: Tag, vr: VRs.DcmVR, value: uint16) returns (r: Result<bool, DataError>)
      requires Valid()
      modifies this
      ensures Valid() && transferSyntax == old(transferSyntax)
      ensures vr != VRs.US ==> r == Failure(IncorrectVR) && items == old(items)
      ensures vr == VRs.US ==>
        r == Success(true) && items == Insert(old(items), Element(t, VRs.US, Numbers([value]), transferSyntax.endian))
    {
      if vr != VRs.US {
        return Failure(IncorrectVR);
      }
      var added := AddElement(t, vr);
      var stored := Element(t, VRs.US, Numbers([value]), transferSyntax.endian);
      InsertReplace(old(items), WithEndian(NewElement(t, vr), transferSyntax.endian), stored);
      AddItem(stored);
      return Success(added);
    }

    /** `AddElementWithValue(tag, int)`: the tag's VR must be IS (stored as
        decimal text) or SL. */
    method AddElementWithInt32(t: Tag, vr: VRs.DcmVR, value: int32) returns (r: Result<bool, DataError>)
      requires Valid()
      modifies this
      ensures Valid() && transferSyntax == old(transferSyntax)
      ensures vr != VRs.IS && vr != VRs.SL ==> r == Failure(IncorrectVR) && items == old(items)
      ensures vr == VRs.IS || vr == VRs.SL ==>
        r == Success(true) && items == Insert(old(items), Int32Element(t, vr, value, transferSyntax.endian))
    {
      if vr != VRs.IS && vr != VRs.SL {
        return Failure(IncorrectVR);
      }
      var added := AddElement(t, vr);
      var stored := Int32Element(t, vr, value, transferSyntax.endian);
      InsertReplace(old(items), WithEndian(NewElement(t, vr), transferSyntax.endian), stored);
      AddItem(stored);
      return Success(added);
    }

    /** `AddElementWithValueString(tag, value)`: the new element parses the
        text by its VR. When the text does not parse the exception comes
        after the empty element was added, and it stays. */
    method AddElementWithValueString(t: Tag, vr: VRs.DcmVR, value: string) returns (r: Result<bool, DataError>)
      requires Valid()
      modifies this
      ensures Valid() && transferSyntax == old(transferSyntax)
      ensures var empty := WithEndian(NewElement(t, vr), transferSyntax.endian);
        match ParseValueString(empty.value, value)
        case Success(v) => r == Success(true) && items == Insert(old(items), empty.(value := v))
        case Failure(e) => r == Failure(e) && items == Insert(old(items), empty)
      ensures items == AddedWithValueString(old(items), t, vr, value, transferSyntax.endian)
    {
      var added := AddElement(t, vr);
      var empty := WithEndian(NewElement(t, vr), transferSyntax.endian);
      var parsed := ParseValueString(empty.value, value);
      if parsed.Failure? {
        return Failure(parsed.error);
      }
      InsertReplace(old(items), empty, empty.(value := parsed.value));
      AddItem(empty.(value := parsed.value));
      return Success(added);
    }

    /** `AddReferenceSequenceItem(tag, classUid, instUid)`: appends an item
        holding the two UIDs to the sequence under the tag, creating the
        sequence when the tag is absent; any other item under the tag is an
        error. */
    method AddReferenceSequenceItem(t: Tag, classUid: string, instUid: string) returns (err: Option<DataError>)
      requires Valid()
      modifies this
      ensures Valid() && transferSyntax == old(transferSyntax)
      ensures var found := GetItem(old(items), t);
        if found.Some? && !found.value.ItemSequence? then err == Some(IncorrectVR) && items == old(items)
        else
          var entries := if found.Some? then found.value.entries else [];
          err == None &&
          items == Insert(old(items), ItemSequence(t, transferSyntax.endian, entries + [ReferenceItem(classUid, instUid)]))
    {
      var found := GetItem(items, t);
      if found.Some? && !found.value.ItemSequence? {
        return Some(IncorrectVR);
      }
      var entries := if found.Some? then found.value.entries else [];
      if found.None? {
        AddItem(ItemSequence(t, EndianIO.Little, []));
        InsertReplace(old(items), ItemSequence(t, transferSyntax.endian, []),
                      ItemSequence(t, transferSyntax.endian, entries + [ReferenceItem(classUid, instUid)]));
      }
      AddItem(ItemSequence(t, transferSyntax.endian, entries + [ReferenceItem(classUid, instUid)]));
      return None;
    }

    /** `Clone()`: a new dataset in the same syntax, filled through
        `AddItem`, holds the same table. */
    method Clone() returns (d: DcmDataset)
      requires Valid()
      ensures fresh(d) && d.Valid()
      ensures d.transferSyntax == transferSyntax && d.items == items
    {
      d := new DcmDataset(transferSyntax);
      InsertAllRebuilds([], items, transferSyntax.endian);
      d.Merge(items);
    }

    /** `ChangeTransferSyntax(to)`: returns the steps taken. Between two
        encapsulated syntaxes the dataset first passes through Explicit VR
        Little Endian. The codecs' effect on the pixel data is not part of
        this model: the table changes only by the new byte order. */
    method ChangeTransferSyntax(to: TS.DcmTS) returns (plan: seq<Step>)
      requires Valid()
      modifies this
      ensures Valid()
      ensures plan == ChangePlan(old(transferSyntax), to, Contains(old(items), PixelData))
      ensures old(transferSyntax) == to ==> items == old(items) && transferSyntax == to
      ensures old(transferSyntax) != to ==>
        transferSyntax == to && items == WithSyntax(old(items), to) && AllInSyntax(items, to)
      decreases if to.isEncapsulated then 1 else 0
    {
      var from := transferSyntax;
      var hasPixelData := Contains(items, PixelData);
      if from == to {
        return [];
      }
      var prefix: seq<Step> := [];
      if from.isEncapsulated && to.isEncapsulated {
        prefix := ChangeTransferSyntax(TS.ExplicitVRLittleEndian);
        from := TS.ExplicitVRLittleEndian;
        WithSyntaxTwice(old(items), TS.ExplicitVRLittleEndian, to);
      }
      var frames :=
        if !hasPixelData then []
        else if from.isEncapsulated then [Decode(from)]
        else if to.isEncapsulated then [Encode(to)]
        else [CopyFrames];
      SetInternalTransferSyntax(to);
      return prefix + frames + [SetSyntax(to)];
    }

    /** `CalculateWriteLength`: 32-bit (`uint`) accumulation of
        `WriteLengthFrom`. `lengths` is each item's own
        `CalculateWriteLength`, which is not part of this model. */
    method CalculateWriteLength(explicitVR: bool, groupLengths: bool, lengths: Item -> nat)
      returns (length: uint32)
      ensures length == WriteLengthFrom(items, lengths, 0xFFFF, groupLengths, explicitVR) % TWO_32
    {
      length := 0;
      var group: uint16 := 0xFFFF;
      ghost var total := 0;
      var i := 0;
      while i < |items|
        invariant 0 <= i <= |items|
        invariant total + WriteLengthFrom(items[i..], lengths, group, groupLengths, explicitVR) ==
                  WriteLengthFrom(items, lengths, 0xFFFF, groupLengths, explicitVR)
        invariant length == total % TWO_32
      {
        assert items[i..][1..] == items[i + 1..];
        if items[i].tag.element == 0 {
          i := i + 1;
          continue;
        }
        if items[i].tag.group != group {
          group := items[i].tag.group;
          if groupLengths {
            ModAbsorb(length as int, total, GroupLengthSize(explicitVR));
            length := (length + GroupLengthSize(explicitVR)) % TWO_32;
            total := total + GroupLengthSize(explicitVR);
          }
        }
        var n := lengths(items[i]);
        ModAbsorb(length as int, total, n);
        length := (length + n) % TWO_32;
        total := total + n;
        i := i + 1;
      }
    }

    /** `CalculateGroupWriteLength(group)`, in 32 bits. */
    method CalculateGroupWriteLength(group: uint16, lengths: Item -> nat) returns (length: uint32)
      requires Valid()
      ensures length == SumLengths(ItemsOfGroup(items, group), lengths) % TWO_32
    {
      var xs := items;
      GroupLengthIsGroupSum(xs, lengths, group);
      ghost var whole := GroupLength(xs, lengths, group);
      length := 0;
      ghost var total := 0;
      var i := 0;
      while i < |xs|
        invariant 0 <= i <= |xs|
        invariant total + GroupLength(xs[i..], lengths, group) == whole
        invariant length == ToUInt32(total)
      {
        GroupLengthStep(xs, i, lengths, group);
        var x := xs[i];
        if x.tag.group < group || x.tag.element == 0 {
          i := i + 1;
          continue;
        }
        if x.tag.group > group {
          return;
        }
        var n := lengths(x);
        WrapStep(length, total, n);
        length := ToUInt32(length as int + n);
        total := total + n;
        i := i + 1;
      }
    }

    /** `SetInternalTransferSyntax`. */
    method SetInternalTransferSyntax(ts: TS.DcmTS)
      requires Valid()
      modifies this
      ensures Valid()
      ensures transferSyntax == ts && items == WithSyntax(old(items), ts)
      ensures AllInSyntax(items, ts)
    {
      transferSyntax := ts;
      var source := items;
      var done: seq<Item> := [];
      for k := 0 to |source|
        invariant items == source && transferSyntax == ts
        invariant done == WithSyntax(source[..k], ts)
      {
        WithSyntaxSnoc(source[..k], source[k], ts);
        assert source[..k + 1] == source[..k] + [source[k]];
        done := done + [ItemWithSyntax(source[k], ts)];
      }
      assert source[..|source|] == source;
      WithSyntaxReaches(source, ts);
      items := done;
    }
  }

  // ----------------------------------------------------- group lengths

  /** The sum `CalculateGroupWriteLength(group)` accumulates: the items of
      that group except its group length, stopping at the first later group. */
  ghost function GroupLength(items: seq<Item>, lengths: Item -> nat, group: uint16): nat
    decreases |items|
  {
    if |items| == 0 then 0
    else if items[0].tag.group < group || items[0].tag.element == 0 then GroupLength(items[1..], lengths, group)
    else if items[0].tag.group > group then 0
    else lengths(items[0]) + GroupLength(items[1..], lengths, group)
  }

  /** One more addition to a sum kept modulo 2^32. */
  lemma WrapStep(length: uint32, total: int, n: int)
    requires length == ToUInt32(total)
    ensures ToUInt32(length as int + n) == ToUInt32(total + n)
  {
    ModAbsorb(length as int, total, n);
  }

  /** `GroupLength` from item `i` on, one item at a time. */
  lemma GroupLengthStep(items: seq<Item>, i: nat, lengths: Item -> nat, group: uint16)
    requires i < |items|
    ensures GroupLength(items[i..], lengths, group) ==
      if items[i].tag.group < group || items[i].tag.element == 0 then GroupLength(items[i + 1..], lengths, group)
      else if items[i].tag.group > group then 0
      else lengths(items[i]) + GroupLength(items[i + 1..], lengths, group)
  {
    assert items[i..][1..] == items[i + 1..];
  }

  function ItemsOfGroup(items: seq<Item>, group: uint16): (r: seq<Item>)
    ensures forall x :: x in r ==> x in items && x.tag.group == group && x.tag.element != 0
    ensures forall x :: x in items && x.tag.group == group && x.tag.element != 0 ==> x in r
  {
    if |items| == 0 then []
    else if items[0].tag.group == group && items[0].tag.element != 0 then [items[0]] + ItemsOfGroup(items[1..], group)
    else ItemsOfGroup(items[1..], group)
  }

  /** In a sorted table the early return loses nothing: the group's length
      is the sum over exactly the items of that group. */
  lemma {:induction false} GroupLengthIsGroupSum(items: seq<Item>, lengths: Item -> nat, group: uint16)
    requires Sorted(items)
    ensures GroupLength(items, lengths, group) == SumLengths(ItemsOfGroup(items, group), lengths)
    decreases |items|
  {
    if |items| > 0 {
      SortedTail(items);
      GroupLengthIsGroupSum(items[1..], lengths, group);
      if items[0].tag.group > group {
        assert forall x :: x in items[1..] ==> x.tag.group > group;
        assert ItemsOfGroup(items[1..], group) == [];
      }
    }
  }

  // --------------------------------------------------------------- helpers

  /** The loop of `Remove(mask)` on the list itself: `RemoveAt(i--)` on a
      match, so the next item is looked at under the same index. */
  method RemoveMatchingFrom(items: seq<Item>, m: TagMask) returns (s: seq<Item>)
    ensures s == RemoveMasked(items, m)
  {
    s := items;
    var i := 0;
    while i < |s|
      invariant 0 <= i <= |s|
      invariant s[..i] + RemoveMasked(s[i..], m) == RemoveMasked(items, m)
      decreases |s| - i
    {
      if IsMatch(m, s[i].tag) {
        RemoveAtStep(s, i, m);
        s := s[..i] + s[i + 1..];
      } else {
        KeepStep(s, i, m);
        i := i + 1;
      }
    }
    assert s[..i] == s;
  }

  lemma RemoveAtStep(s: seq<Item>, i: nat, m: TagMask)
    requires i < |s| && IsMatch(m, s[i].tag)
    ensures (s[..i] + s[i + 1..])[..i] + RemoveMasked((s[..i] + s[i + 1..])[i..], m) ==
            s[..i] + RemoveMasked(s[i..], m)
  {
    var t := s[..i] + s[i + 1..];
    assert t[..i] == s[..i];
    assert t[i..] == s[i + 1..];
    assert s[i..][1..] == s[i + 1..];
  }

  lemma KeepStep(s: seq<Item>, i: nat, m: TagMask)
    requires i < |s| && !IsMatch(m, s[i].tag)
    ensures s[..i + 1] + RemoveMasked(s[i + 1..], m) == s[..i] + RemoveMasked(s[i..], m)
  {
    assert s[i..][1..] == s[i + 1..];
    assert s[..i + 1] == s[..i] + [s[i]];
  }

  lemma {:induction false} WithSyntaxSnoc(s: seq<Item>, x: Item, ts: TS.DcmTS)
    ensures WithSyntax(s + [x], ts) == WithSyntax(s, ts) + [ItemWithSyntax(x, ts)]
    decreases |s|
  {
    if |s| > 0 {
      assert (s + [x])[1..] == s[1..] + [x];
      WithSyntaxSnoc(s[1..], x, ts);
    } else {
      assert s + [x] == [x];
    }
  }
}
