/** `DcmModify` of trunk/Dicom/Data/DcmModify.cs: a rule that rewrites every
    element of a dataset whose tag matches a mask, `GenerateID`, `RunAll` and
    `GetTags`. The text a rule holds for its mask is already parsed
    (`DcmTagMask.Parse` is not part of this model); `String.Split` with a
    character set, `String.Format`, `Regex.Replace`, the tag dictionary and
    the registered user callbacks come in as an `Outside` value, and the
    clock as a `Clock` reading. */
module ModifyTrunk {
  import opened Ints
  import opened Wrappers
  import Text
  import VRs
  import EndianIO
  import D = Dataset

  datatype ModifyOp = Remove | AddOrReplace | Map | Split | Regex | Prefix | Append | Format
                    | Chomp | Truncate | GenerateID | UserOp1 | UserOp2 | UserOp3 | UserOp4

  predicate IsUserOp(op: ModifyOp) {
    op.UserOp1? || op.UserOp2? || op.UserOp3? || op.UserOp4?
  }

  /** The operators that edit the value string of an element already there. */
  predicate IsValueEdit(op: ModifyOp) {
    !(op.Remove? || op.AddOrReplace? || op.GenerateID? || IsUserOp(op))
  }

  /** A rule: `mask` is `None` where `DcmTagMask.Parse` returns null. */
  datatype DcmModify = DcmModify(mask: Option<D.TagMask>, op: ModifyOp, input: string, output: string)

  /** What a rule calls outside this model; `None` stands for an exception. */
  datatype Outside = Outside(
    /** `String.Format(output, value.Split(input.ToCharArray()))`, given (value, input, output). */
    splitFormat: (string, string, string) -> Option<string>,
    /** `Regex.Replace(value, input, output)`, given (value, input, output). */
    regexReplace: (string, string, string) -> Option<string>,
    /** `String.Format(output, value)`, given (value, output). */
    format: (string, string) -> Option<string>,
    /** `tag.Entry.DefaultVR`. */
    defaultVR: D.Tag -> VRs.DcmVR,
    /** The user operators whose static callback is set. */
    callbacks: set<ModifyOp>)

  // ---------------------------------------------------------- GenerateID

  type DaySeconds = s: int | 0 <= s < 86400

  /** A reading of `DateTime.Now`: the whole days since 2000-01-01
      (truncated toward zero) and the whole seconds of the day. */
  datatype Clock = Clock(days: int, seconds: DaySeconds)

  /** The day count in at least four digits followed by the second count
      in five, read as a number; `None` where the text is negative or too
      large for 32 bits and `uint.Parse` throws. */
  function IdNumber(now: Clock): (n: Option<uint32>)
    ensures n.Some? <==> 0 <= now.days && now.days * 100000 + now.seconds < TWO_32
    ensures n.Some? ==> n.value / 100000 == now.days && n.value % 100000 == now.seconds
  {
    var v := now.days * 100000 + now.seconds;
    if now.days < 0 || v >= TWO_32 then None else Some(v)
  }

  /** `if (uid <= lastgid) uid = lastgid + 1`, in unchecked 32-bit
      arithmetic: the clock's number when it is ahead of the last one,
      otherwise the successor of the last one. */
  function NextId(last: uint32, n: uint32): (r: uint32)
    ensures last < TWO_32 - 1 ==> last < r
    ensures r == n || r == (last + 1) % TWO_32
  {
    if n <= last then (last + 1) % TWO_32 else n
  }

  /** The number the generator settles on, or `None` when parsing throws. */
  function Generated(last: uint32, now: Clock): Option<uint32> {
    var n := IdNumber(now);
    if n.None? then None else Some(NextId(last, n.value))
  }

  function Zeros(k: nat): (s: string)
    ensures |s| == k && Text.AllDigits(s)
  {
    seq(k, _ => '0')
  }

  /** The decimal digits of `uid`, padded with
      zeros in front to at least nine. */
  function IdText(n: uint32): (s: string)
    ensures |s| >= 9 && Text.AllDigits(s) && Text.DigitsValue(s) == n
  {
    var ds := Text.Digits(n);
    Text.DigitsRoundTrip(n);
    LeadingZeros(if |ds| >= 9 then 0 else 9 - |ds|, ds);
    Zeros(if |ds| >= 9 then 0 else 9 - |ds|) + ds
  }

  /** Zeros in front do not change the value of a digit string. */
  lemma {:induction false} LeadingZeros(k: nat, ds: string)
    requires Text.AllDigits(ds)
    ensures Text.AllDigits(Zeros(k) + ds)
    ensures Text.DigitsValue(Zeros(k) + ds) == Text.DigitsValue(ds)
    decreases |ds|, k
  {
    var s := Zeros(k) + ds;
    if |ds| > 0 {
      assert s[..|s| - 1] == Zeros(k) + ds[..|ds| - 1];
      LeadingZeros(k, ds[..|ds| - 1]);
    } else if k > 0 {
      assert s == Zeros(k - 1) + ['0'];
      assert s[..|s| - 1] == Zeros(k - 1) + ds;
      LeadingZeros(k - 1, ds);
    }
  }

  /** Different numbers give different identifiers. */
  lemma IdTextInjective(a: uint32, b: uint32)
    requires IdText(a) == IdText(b)
    ensures a == b
  {
  }

  /** The static `lastgid` behind the lock. */
  class IdGenerator {
    var lastgid: uint32

    constructor ()
      ensures lastgid == 0
    {
      lastgid := 0;
    }

    /** `GenerateID()`: a number taken from the clock, bumped past the last
        one handed out; when the clock text does not parse the exception
        leaves `lastgid` alone. */
    method GenerateID(now: Clock) returns (id: Option<string>)
      modifies this
      ensures var g := Generated(old(lastgid), now);
        if g.None? then id == None && lastgid == old(lastgid)
        else lastgid == g.value && id == Some(IdText(g.value))
      ensures id.Some? && old(lastgid) < TWO_32 - 1 ==> old(lastgid) < lastgid
    {
      var days := now.days;
      if days < 0 || days * 100000 + now.seconds >= TWO_32 {
        return None;
      }
      var uid: uint32 := days * 100000 + now.seconds;
      if uid <= lastgid {
        uid := (lastgid + 1) % TWO_32;
      }
      lastgid := uid;
      return Some(IdText(uid));
    }
  }

  // ---------------------------------------------------------- Truncate

  /** Each part cut to at most `n` characters. */
  function Truncated(parts: seq<string>, n: nat): (r: seq<string>)
    ensures |r| == |parts|
  {
    seq(|parts|, i requires 0 <= i < |parts| => if |parts[i]| > n then parts[i][..n] else parts[i])
  }

  /** Every cut part is a prefix of its part, at most `n` long, and a part
      that was short enough is kept whole. */
  lemma TruncatedParts(parts: seq<string>, n: nat, i: nat)
    requires i < |parts|
    ensures Text.StartsWith(parts[i], Truncated(parts, n)[i])
    ensures |Truncated(parts, n)[i]| == if |parts[i]| <= n then |parts[i]| else n
  {
  }

  /** The loop of the `Truncate` branch over the array of parts. */
  method TruncateParts(parts: array<string>, n: nat)
    modifies parts
    ensures parts[..] == Truncated(old(parts[..]), n)
  {
    for i := 0 to parts.Length
      invariant forall k :: 0 <= k < i ==> parts[k] == Truncated(old(parts[..]), n)[k]
      invariant forall k :: i <= k < parts.Length ==> parts[k] == old(parts[k])
    {
      if |parts[i]| > n {
        parts[i] := parts[i][..n];
      }
    }
  }

  /** The `Truncate` branch: `int.Parse(input)`, each '\'-separated part cut
      to that length, the parts joined again. `None` where `int.Parse`
      throws, and where the length is negative (`Substring(0, length)`
      throws on the first part). */
  function TruncatedValue(value: string, input: string): (r: Option<string>)
    ensures r.Some? <==> Text.ParseInt32(input).Some? && Text.ParseInt32(input).value >= 0
  {
    var n := Text.ParseInt32(input);
    if n.None? || n.value < 0 then None
    else Some(Text.Join(Truncated(Text.Split(value, '\\'), n.value as nat), '\\'))
  }

  /** Truncating keeps the number of values, and value `i` of the result is
      value `i` of the input cut to the length. */
  lemma TruncateKeepsValues(value: string, input: string)
    requires TruncatedValue(value, input).Some?
    ensures var n := Text.ParseInt32(input).value as nat;
            Text.Split(TruncatedValue(value, input).value, '\\') == Truncated(Text.Split(value, '\\'), n)
    ensures |Text.Split(TruncatedValue(value, input).value, '\\')| == |Text.Split(value, '\\')|
  {
    var n := Text.ParseInt32(input).value as nat;
    var parts := Text.Split(value, '\\');
    var cut := Truncated(parts, n);
    Text.SplitPiecesHaveNoSeparator(value, '\\');
    forall i | 0 <= i < |cut| ensures '\\' !in cut[i] {
      assert '\\' !in parts[i];
    }
    Text.SplitJoin(cut, '\\');
  }

  /** `TruncatedValue` computed as the source does, on an array of parts. */
  method TruncateValue(value: string, input: string) returns (r: Option<string>)
    ensures r == TruncatedValue(value, input)
  {
    var n := Text.ParseInt32(input);
    if n.None? || n.value < 0 {
      return None;
    }
    var ps := Text.Split(value, '\\');
    var parts := new string[|ps|](i requires 0 <= i < |ps| => ps[i]);
    assert parts[..] == ps;
    TruncateParts(parts, n.value as nat);
    return Some(Text.Join(parts[..], '\\'));
  }

  // ------------------------------------------------------------- Apply

  /** The new value string of a value-editing rule, `None` when the rule
      leaves the element alone or throws before `SetValueString`. */
  function EditedValue(rule: DcmModify, value: string, out: Outside): (r: Option<string>)
    requires IsValueEdit(rule.op)
    ensures rule.op == Map ==> (r.Some? <==> value == rule.input) && (r.Some? ==> r.value == rule.output)
    ensures rule.op == Chomp ==> (r.Some? <==> Text.StartsWith(value, rule.output)) &&
                                 (r.Some? ==> rule.output + r.value == value)
  {
    match rule.op
    case Map => if rule.input == value then Some(rule.output) else None
    case Split => out.splitFormat(value, rule.input, rule.output)
    case Regex => out.regexReplace(value, rule.input, rule.output)
    case Prefix => Some(rule.input + value)
    case Append => Some(value + rule.input)
    case Format => out.format(value, rule.output)
    case Chomp =>
      if Text.StartsWith(value, rule.output) then
        assert value == rule.output + value[|rule.output|..];
        Some(value[|rule.output|..])
      else None
    case Truncate => TruncatedValue(value, rule.input)
  }

  /** `elem.SetValueString(s)` on the element stored under its tag; a text
      that does not parse throws and the element keeps its value. */
  function SetValueIn(items: seq<D.Item>, elem: D.Item, s: string): seq<D.Item>
    requires elem.Element?
  {
    match D.ParseValueString(elem.value, s)
    case Success(v) => D.Insert(items, elem.(value := v))
    case Failure(_) => items
  }

  /** The table after `Apply(dataset, tag)` in a dataset of byte order `e`;
      `id` is what `GenerateID` returned. A set user callback gets the
      dataset; `Apply` reports the call, and the table is taken to be
      unchanged by it. */
  function ApplyTo(rule: DcmModify, items: seq<D.Item>, t: D.Tag, out: Outside,
                   e: EndianIO.Endian, id: Option<string>): (r: seq<D.Item>)
    ensures IsValueEdit(rule.op) && D.GetElement(items, t).None? ==> r == items
    ensures IsUserOp(rule.op) ==> r == items
  {
    if rule.op == Remove then D.Without(items, t)
    else if IsUserOp(rule.op) then items
    else if rule.op == AddOrReplace then D.AddedWithValueString(items, t, out.defaultVR(t), rule.output, e)
    else if rule.op == GenerateID then
      if id.None? then items else D.AddedWithValueString(items, t, out.defaultVR(t), id.value, e)
    else
      var elem := D.GetElement(items, t);
      if elem.None? then items
      else
        var s := EditedValue(rule, D.ValueString(elem.value.value), out);
        if s.None? then items else SetValueIn(items, elem.value, s.value)
  }

  /** A rule applied to one tag touches no other tag. */
  lemma ApplyToOtherTags(rule: DcmModify, items: seq<D.Item>, t: D.Tag, out: Outside,
                         e: EndianIO.Endian, id: Option<string>, u: D.Tag)
    requires u != t
    ensures D.GetItem(ApplyTo(rule, items, t, out, e, id), u) == D.GetItem(items, u)
  {
    if rule.op == Remove {
      D.GetItemWithout(items, t, u);
    } else if rule.op == AddOrReplace {
      D.AddedWithValueStringGet(items, t, out.defaultVR(t), rule.output, e, u);
    } else if rule.op == GenerateID && id.Some? {
      D.AddedWithValueStringGet(items, t, out.defaultVR(t), id.value, e, u);
    } else if IsValueEdit(rule.op) {
      var elem := D.GetElement(items, t);
      if elem.Some? {
        var s := EditedValue(rule, D.ValueString(elem.value.value), out);
        if s.Some? && D.ParseValueString(elem.value.value, s.value).Success? {
          D.GetItemInsert(items, elem.value.(value := D.ParseValueString(elem.value.value, s.value).value), u);
        }
      }
    }
  }

  /** Applying a rule keeps the table sorted. */
  lemma ApplyToSorted(rule: DcmModify, items: seq<D.Item>, t: D.Tag, out: Outside,
                      e: EndianIO.Endian, id: Option<string>)
    requires D.Sorted(items)
    ensures D.Sorted(ApplyTo(rule, items, t, out, e, id))
  {
    var vr := out.defaultVR(t);
    var empty := D.WithEndian(D.NewElement(t, vr), e);
    if rule.op == Remove {
      D.WithoutSorted(items, t);
    } else if rule.op == AddOrReplace || (rule.op == GenerateID && id.Some?) {
      var s := if rule.op == AddOrReplace then rule.output else id.value;
      match D.ParseValueString(empty.value, s)
      case Success(v) => D.InsertSorted(items, empty.(value := v));
      case Failure(_) => D.InsertSorted(items, empty);
    } else if IsValueEdit(rule.op) {
      var elem := D.GetElement(items, t);
      if elem.Some? {
        var s := EditedValue(rule, D.ValueString(elem.value.value), out);
        if s.Some? && D.ParseValueString(elem.value.value, s.value).Success? {
          D.InsertSorted(items, elem.value.(value := D.ParseValueString(elem.value.value, s.value).value));
        }
      }
    }
  }

  /** Applying a rule to a tag the table holds never grows the table. */
  lemma ApplyToLength(rule: DcmModify, items: seq<D.Item>, t: D.Tag, out: Outside,
                      e: EndianIO.Endian, id: Option<string>)
    requires D.Sorted(items) && t in D.Tags(items)
    ensures |ApplyTo(rule, items, t, out, e, id)| <= |items|
  {
    var vr := out.defaultVR(t);
    var empty := D.WithEndian(D.NewElement(t, vr), e);
    if rule.op == Remove {
      D.WithoutLength(items, t);
    } else if rule.op == AddOrReplace || (rule.op == GenerateID && id.Some?) {
      var s := if rule.op == AddOrReplace then rule.output else id.value;
      match D.ParseValueString(empty.value, s)
      case Success(v) => D.InsertLength(items, empty.(value := v));
      case Failure(_) => D.InsertLength(items, empty);
    } else if IsValueEdit(rule.op) {
      var elem := D.GetElement(items, t);
      if elem.Some? {
        var s := EditedValue(rule, D.ValueString(elem.value.value), out);
        if s.Some? && D.ParseValueString(elem.value.value, s.value).Success? {
          D.InsertLength(items, elem.value.(value := D.ParseValueString(elem.value.value, s.value).value));
        }
      }
    }
  }

  /** `Remove` deletes the tag. */
  lemma RemoveDeletes(rule: DcmModify, items: seq<D.Item>, t: D.Tag, out: Outside,
                      e: EndianIO.Endian, id: Option<string>)
    requires rule.op == Remove
    ensures D.GetItem(ApplyTo(rule, items, t, out, e, id), t) == None
  {
    D.GetItemWithout(items, t, t);
  }

  /** `AddOrReplace` leaves an element of the tag's dictionary VR whether or
      not the tag was there; for a string VR it reads back as the output. */
  lemma AddOrReplaceSets(rule: DcmModify, items: seq<D.Item>, t: D.Tag, out: Outside,
                         e: EndianIO.Endian, id: Option<string>)
    requires rule.op == AddOrReplace
    ensures var r := ApplyTo(rule, items, t, out, e, id);
      D.GetElement(r, t).Some? && D.GetElement(r, t).value.vr == out.defaultVR(t) &&
      (out.defaultVR(t).isString ==> D.GetValueString(r, t) == Some(rule.output))
  {
    D.AddedWithValueStringGet(items, t, out.defaultVR(t), rule.output, e, t);
  }

  /** On a text element a value edit stores exactly the edited string. */
  lemma EditStoresText(rule: DcmModify, items: seq<D.Item>, t: D.Tag, out: Outside,
                       e: EndianIO.Endian, id: Option<string>)
    requires IsValueEdit(rule.op)
    requires D.GetElement(items, t).Some? && D.GetElement(items, t).value.value.Text?
    ensures var s := EditedValue(rule, D.GetElement(items, t).value.value.text, out);
      D.GetValueString(ApplyTo(rule, items, t, out, e, id), t) ==
        if s.Some? then s else D.GetValueString(items, t)
  {
    var elem := D.GetElement(items, t).value;
    var s := EditedValue(rule, elem.value.text, out);
    if s.Some? {
      D.GetItemInsert(items, elem.(value := D.Text(s.value)), t);
    }
  }

  /** A value edit of a text element stores the edited string in place of
      the element's text. */
  lemma ApplyToText(rule: DcmModify, items: seq<D.Item>, t: D.Tag, out: Outside,
                    e: EndianIO.Endian, id: Option<string>)
    requires IsValueEdit(rule.op)
    requires D.GetElement(items, t).Some? && D.GetElement(items, t).value.value.Text?
    ensures var elem := D.GetElement(items, t).value;
            var s := EditedValue(rule, elem.value.text, out);
            ApplyTo(rule, items, t, out, e, id) ==
              if s.Some? then D.Insert(items, elem.(value := D.Text(s.value))) else items
  {
  }

  /** `Chomp` with the text a `Prefix` put in front takes it off again: the
      table comes back as it was. */
  lemma ChompUndoesPrefix(m: Option<D.TagMask>, p: string, items: seq<D.Item>, t: D.Tag,
                          out: Outside, e: EndianIO.Endian)
    requires D.Sorted(items)
    requires D.GetElement(items, t).Some? && D.GetElement(items, t).value.value.Text?
    ensures var prefixed := ApplyTo(DcmModify(m, Prefix, p, ""), items, t, out, e, None);
            ApplyTo(DcmModify(m, Chomp, "", p), prefixed, t, out, e, None) == items
  {
    var elem := D.GetElement(items, t).value;
    var v := elem.value.text;
    var x1 := elem.(value := D.Text(p + v));
    PrefixStores(m, p, items, t, out, e);
    ChompStores(m, p, v, D.Insert(items, x1), x1, t, out, e);
    assert x1.(value := D.Text(v)) == elem;
    D.InsertReplace(items, x1, elem);
    D.InsertMember(items, elem);
  }

  lemma PrefixStores(m: Option<D.TagMask>, p: string, items: seq<D.Item>, t: D.Tag,
                     out: Outside, e: EndianIO.Endian)
    requires D.GetElement(items, t).Some? && D.GetElement(items, t).value.value.Text?
    ensures var elem := D.GetElement(items, t).value;
            var x1 := elem.(value := D.Text(p + elem.value.text));
            ApplyTo(DcmModify(m, Prefix, p, ""), items, t, out, e, None) == D.Insert(items, x1) &&
            D.GetElement(D.Insert(items, x1), t) == Some(x1)
  {
    var elem := D.GetElement(items, t).value;
    ApplyToText(DcmModify(m, Prefix, p, ""), items, t, out, e, None);
    D.GetItemInsert(items, elem.(value := D.Text(p + elem.value.text)), t);
  }

  lemma ChompStores(m: Option<D.TagMask>, p: string, v: string, items: seq<D.Item>, x: D.Item, t: D.Tag,
                    out: Outside, e: EndianIO.Endian)
    requires D.GetElement(items, t) == Some(x) && x.value == D.Text(p + v)
    ensures ApplyTo(DcmModify(m, Chomp, "", p), items, t, out, e, None) == D.Insert(items, x.(value := D.Text(v)))
  {
    assert (p + v)[..|p|] == p && (p + v)[|p|..] == v;
    assert EditedValue(DcmModify(m, Chomp, "", p), p + v, out) == Some(v);
    ApplyToText(DcmModify(m, Chomp, "", p), items, t, out, e, None);
  }

  // ---------------------------------------------------- Apply on the objects

  /** The dataset and the generator's counter. */
  datatype State = State(items: seq<D.Item>, lastgid: uint32)

  /** `Apply(dataset, tag)` together with the `GenerateID` call it makes. */
  function Step(rule: DcmModify, s: State, t: D.Tag, out: Outside, e: EndianIO.Endian, now: Clock): State {
    if rule.op == GenerateID then
      var g := Generated(s.lastgid, now);
      State(ApplyTo(rule, s.items, t, out, e, if g.None? then None else Some(IdText(g.value))),
            if g.None? then s.lastgid else g.value)
    else State(ApplyTo(rule, s.items, t, out, e, None), s.lastgid)
  }

  /** `Apply(dataset, tag)`. `call` names the user callback that is invoked
      with the dataset; every exception is caught and leaves the dataset as
      it was at that point. */
  method Apply(rule: DcmModify, ds: D.DcmDataset, gen: IdGenerator, t: D.Tag, out: Outside, now: Clock)
    returns (call: Option<ModifyOp>)
    requires ds.Valid()
    modifies ds, gen
    ensures ds.Valid() && ds.transferSyntax == old(ds.transferSyntax)
    ensures State(ds.items, gen.lastgid) ==
            Step(rule, State(old(ds.items), old(gen.lastgid)), t, out, ds.transferSyntax.endian, now)
    ensures call == if IsUserOp(rule.op) && rule.op in out.callbacks then Some(rule.op) else None
  {
    call := None;
    if rule.op == Remove {
      ds.Remove(t);
      return;
    }
    if IsUserOp(rule.op) {
      if rule.op in out.callbacks {
        call := Some(rule.op);
      }
      return;
    }
    var elem := D.GetElement(ds.items, t);
    if rule.op == AddOrReplace {
      var added := ds.AddElementWithValueString(t, out.defaultVR(t), rule.output);
      return;
    }
    if rule.op == GenerateID {
      var id := gen.GenerateID(now);
      if id.Some? {
        var added := ds.AddElementWithValueString(t, out.defaultVR(t), id.value);
      }
      return;
    }
    if elem.None? {
      return;
    }
    var value := D.ValueString(elem.value.value);
    var s: Option<string>;
    if rule.op == Truncate {
      s := TruncateValue(value, rule.input);
    } else {
      s := EditedValue(rule, value, out);
    }
    if s.None? {
      return;
    }
    var parsed := D.ParseValueString(elem.value.value, s.value);
    if parsed.Failure? {
      return;
    }
    ds.AddItem(elem.value.(value := parsed.value));
  }

  // ------------------------------------------------------------- Modify

  /** The rule applied to each tag of a list in turn. */
  function ModifyTags(rule: DcmModify, s: State, tags: seq<D.Tag>, out: Outside,
                      e: EndianIO.Endian, now: Clock): State
    decreases |tags|
  {
    if |tags| == 0 then s
    else ModifyTags(rule, Step(rule, s, tags[0], out, e, now), tags[1..], out, e, now)
  }

  /** `Modify(dataset)` with the matching tags listed before any rule runs:
      nothing for a mask that does not parse. */
  function Modified(rule: DcmModify, s: State, out: Outside, e: EndianIO.Endian, now: Clock): State {
    if rule.mask.None? then s
    else ModifyTags(rule, s, D.MaskedTags(s.items, rule.mask.value), out, e, now)
  }

  /** Tags outside the list keep their items. */
  lemma {:induction false} ModifyTagsOthers(rule: DcmModify, s: State, tags: seq<D.Tag>, out: Outside,
                                            e: EndianIO.Endian, now: Clock, u: D.Tag)
    requires u !in tags
    ensures D.GetItem(ModifyTags(rule, s, tags, out, e, now).items, u) == D.GetItem(s.items, u)
    decreases |tags|
  {
    if |tags| > 0 {
      var g := Generated(s.lastgid, now);
      ApplyToOtherTags(rule, s.items, tags[0], out, e, None, u);
      ApplyToOtherTags(rule, s.items, tags[0], out, e, if g.None? then None else Some(IdText(g.value)), u);
      ModifyTagsOthers(rule, Step(rule, s, tags[0], out, e, now), tags[1..], out, e, now, u);
    }
  }

  /** `Remove` over a list of tags deletes exactly those tags. */
  lemma {:induction false} ModifyTagsRemove(rule: DcmModify, s: State, tags: seq<D.Tag>, out: Outside,
                                            e: EndianIO.Endian, now: Clock, u: D.Tag)
    requires rule.op == Remove
    ensures D.GetItem(ModifyTags(rule, s, tags, out, e, now).items, u) ==
            if u in tags then None else D.GetItem(s.items, u)
    decreases |tags|
  {
    if |tags| > 0 {
      D.GetItemWithout(s.items, tags[0], u);
      ModifyTagsRemove(rule, Step(rule, s, tags[0], out, e, now), tags[1..], out, e, now, u);
    }
  }

  /** A tag the mask does not match keeps its item, whatever the rule. */
  lemma ModifiedLeavesUnmatched(rule: DcmModify, s: State, out: Outside, e: EndianIO.Endian, now: Clock, u: D.Tag)
    requires rule.mask.None? || !D.IsMatch(rule.mask.value, u)
    ensures D.GetItem(Modified(rule, s, out, e, now).items, u) == D.GetItem(s.items, u)
  {
    if rule.mask.Some? {
      ModifyTagsOthers(rule, s, D.MaskedTags(s.items, rule.mask.value), out, e, now, u);
    }
  }

  /** A `Remove` rule deletes every tag its mask matches and no other. */
  lemma ModifiedRemove(rule: DcmModify, s: State, out: Outside, e: EndianIO.Endian, now: Clock, u: D.Tag)
    requires rule.op == Remove && rule.mask.Some?
    ensures D.GetItem(Modified(rule, s, out, e, now).items, u) ==
            if D.IsMatch(rule.mask.value, u) then None else D.GetItem(s.items, u)
  {
    ModifyTagsRemove(rule, s, D.MaskedTags(s.items, rule.mask.value), out, e, now, u);
  }

  /** `Modify(dataset)` over a list of the matching tags taken before the
      first rule runs. */
  method Modify(rule: DcmModify, ds: D.DcmDataset, gen: IdGenerator, out: Outside, now: Clock)
    requires ds.Valid()
    modifies ds, gen
    ensures ds.Valid() && ds.transferSyntax == old(ds.transferSyntax)
    ensures State(ds.items, gen.lastgid) ==
            Modified(rule, State(old(ds.items), old(gen.lastgid)), out, ds.transferSyntax.endian, now)
  {
    if rule.mask.None? {
      return;
    }
    var tags := D.MaskedTags(ds.items, rule.mask.value);
    for k := 0 to |tags|
      invariant ds.Valid() && ds.transferSyntax == old(ds.transferSyntax)
      invariant ModifyTags(rule, State(ds.items, gen.lastgid), tags[k..], out, ds.transferSyntax.endian, now) ==
                Modified(rule, State(old(ds.items), old(gen.lastgid)), out, ds.transferSyntax.endian, now)
    {
      assert tags[k..][1..] == tags[k + 1..];
      var call := Apply(rule, ds, gen, tags[k], out, now);
    }
  }

  /** `Modify(dataset)` as written: `GetMaskedTags` yields lazily, looking
      at `_items.Values[i]` of the live table after each `Apply`, so the
      item that moves into place `i` when `Apply` removes the one there is
      never looked at. */
  function LazyFrom(rule: DcmModify, s: State, m: D.TagMask, i: nat, out: Outside,
                    e: EndianIO.Endian, now: Clock): State
    requires D.Sorted(s.items)
    decreases |s.items| - i
  {
    if i >= |s.items| then s
    else if D.IsMatch(m, s.items[i].tag) then
      var t := s.items[i].tag;
      var g := Generated(s.lastgid, now);
      ApplyToLength(rule, s.items, t, out, e, None);
      ApplyToLength(rule, s.items, t, out, e, if g.None? then None else Some(IdText(g.value)));
      ApplyToSorted(rule, s.items, t, out, e, None);
      ApplyToSorted(rule, s.items, t, out, e, if g.None? then None else Some(IdText(g.value)));
      LazyFrom(rule, Step(rule, s, t, out, e, now), m, i + 1, out, e, now)
    else LazyFrom(rule, s, m, i + 1, out, e, now)
  }

  /** The loop `foreach (tag in dataset.GetMaskedTags(mask)) Apply(...)` on
      the live table. */
  method ModifyAsWritten(rule: DcmModify, ds: D.DcmDataset, gen: IdGenerator, out: Outside, now: Clock)
    requires ds.Valid()
    modifies ds, gen
    ensures ds.Valid() && ds.transferSyntax == old(ds.transferSyntax)
    ensures rule.mask.None? ==> ds.items == old(ds.items) && gen.lastgid == old(gen.lastgid)
    ensures rule.mask.Some? ==>
      (State(ds.items, gen.lastgid) ==
       LazyFrom(rule, State(old(ds.items), old(gen.lastgid)), rule.mask.value, 0, out, ds.transferSyntax.endian, now))
  {
    if rule.mask.None? {
      return;
    }
    var m := rule.mask.value;
    var i := 0;
    while i < |ds.items|
      invariant ds.Valid() && ds.transferSyntax == old(ds.transferSyntax)
      invariant LazyFrom(rule, State(ds.items, gen.lastgid), m, i, out, ds.transferSyntax.endian, now) ==
                LazyFrom(rule, State(old(ds.items), old(gen.lastgid)), m, 0, out, ds.transferSyntax.endian, now)
      decreases |ds.items| - i
    {
      if D.IsMatch(m, ds.items[i].tag) {
        var t := ds.items[i].tag;
        ghost var g := Generated(gen.lastgid, now);
        ApplyToLength(rule, ds.items, t, out, ds.transferSyntax.endian, None);
        ApplyToLength(rule, ds.items, t, out, ds.transferSyntax.endian, if g.None? then None else Some(IdText(g.value)));
        var call := Apply(rule, ds, gen, t, out, now);
      }
      i := i + 1;
    }
  }

  /** One step of the lazy walk at a matching index. */
  lemma LazyMatchStep(rule: DcmModify, s: State, m: D.TagMask, i: nat, out: Outside,
                      e: EndianIO.Endian, now: Clock)
    requires D.Sorted(s.items) && i < |s.items| && D.IsMatch(m, s.items[i].tag)
    requires rule.op == Remove
    ensures D.Sorted(D.Without(s.items, s.items[i].tag))
    ensures LazyFrom(rule, s, m, i, out, e, now) ==
            LazyFrom(rule, State(D.Without(s.items, s.items[i].tag), s.lastgid), m, i + 1, out, e, now)
  {
    D.WithoutSorted(s.items, s.items[i].tag);
  }

  /** A `Remove` rule whose mask matches every tag, on a table holding
      (0010,0010) and (0010,0020): the lazy walk removes the first, finds the
      second at the index it has already passed, and keeps it; the snapshot
      removes both. */
  lemma LazyRemoveSkips(out: Outside, now: Clock)
    ensures var m := D.TagMask(0, 0);
            var a := D.Element(D.Tag(0x0010, 0x0010), VRs.PN, D.Text("DOE^JOHN"), EndianIO.Little);
            var b := D.Element(D.Tag(0x0010, 0x0020), VRs.LO, D.Text("12345"), EndianIO.Little);
            var rule := DcmModify(Some(m), Remove, "", "");
            D.Sorted([a, b]) &&
            LazyFrom(rule, State([a, b], 0), m, 0, out, EndianIO.Little, now).items == [b] &&
            Modified(rule, State([a, b], 0), out, EndianIO.Little, now).items == []
  {
    var m := D.TagMask(0, 0);
    var a := D.Element(D.Tag(0x0010, 0x0010), VRs.PN, D.Text("DOE^JOHN"), EndianIO.Little);
    var b := D.Element(D.Tag(0x0010, 0x0020), VRs.LO, D.Text("12345"), EndianIO.Little);
    LazyKeepsSecond(a, b, out, now);
    SnapshotRemovesBoth(a, b, out, now);
  }

  lemma LazyKeepsSecond(a: D.Item, b: D.Item, out: Outside, now: Clock)
    requires D.Less(a.tag, b.tag)
    ensures D.Sorted([a, b])
    ensures var rule := DcmModify(Some(D.TagMask(0, 0)), Remove, "", "");
            LazyFrom(rule, State([a, b], 0), D.TagMask(0, 0), 0, out, EndianIO.Little, now).items == [b]
  {
    var m := D.TagMask(0, 0);
    var rule := DcmModify(Some(m), Remove, "", "");
    assert D.IsMatch(m, a.tag);
    assert D.Without([b], a.tag) == [b];
    assert D.Without([a, b], a.tag) == [b] by {
      assert [a, b][1..] == [b];
    }
    LazyMatchStep(rule, State([a, b], 0), m, 0, out, EndianIO.Little, now);
  }

  lemma SnapshotRemovesBoth(a: D.Item, b: D.Item, out: Outside, now: Clock)
    requires D.Less(a.tag, b.tag)
    ensures var rule := DcmModify(Some(D.TagMask(0, 0)), Remove, "", "");
            Modified(rule, State([a, b], 0), out, EndianIO.Little, now).items == []
  {
    var m := D.TagMask(0, 0);
    var rule := DcmModify(Some(m), Remove, "", "");
    MatchAllTwo(a, b);
    assert D.Without([b], a.tag) == [b];
    assert D.Without([a, b], a.tag) == [b] by {
      assert [a, b][1..] == [b];
    }
    RemoveTagStep(rule, State([a, b], 0), [a.tag, b.tag], out, EndianIO.Little, now);
    assert [a.tag, b.tag][1..] == [b.tag];
    RemoveTagStep(rule, State([b], 0), [b.tag], out, EndianIO.Little, now);
    assert D.Without([b], b.tag) == [];
  }

  lemma MatchAllTwo(a: D.Item, b: D.Item)
    ensures D.MaskedTags([a, b], D.TagMask(0, 0)) == [a.tag, b.tag]
  {
    var m := D.TagMask(0, 0);
    assert D.IsMatch(m, a.tag) && D.IsMatch(m, b.tag);
    assert D.MaskedTags([b], m) == [b.tag];
    assert [a, b][1..] == [b];
  }

  /** One tag of a `Remove` rule's list. */
  lemma RemoveTagStep(rule: DcmModify, s: State, tags: seq<D.Tag>, out: Outside,
                      e: EndianIO.Endian, now: Clock)
    requires rule.op == Remove && |tags| > 0
    ensures ModifyTags(rule, s, tags, out, e, now) ==
            ModifyTags(rule, State(D.Without(s.items, tags[0]), s.lastgid), tags[1..], out, e, now)
  {
  }

  // ------------------------------------------------------ RunAll, GetTags

  /** The rules run one after another. */
  function RanAll(rules: seq<DcmModify>, s: State, out: Outside, e: EndianIO.Endian, now: Clock): State
    decreases |rules|
  {
    if |rules| == 0 then s else RanAll(rules[1..], Modified(rules[0], s, out, e, now), out, e, now)
  }

  /** A tag no rule's mask matches keeps its item through `RunAll`. */
  lemma {:induction false} RanAllLeavesUnmatched(rules: seq<DcmModify>, s: State, out: Outside,
                                                 e: EndianIO.Endian, now: Clock, u: D.Tag)
    requires forall i :: 0 <= i < |rules| ==> rules[i].mask.None? || !D.IsMatch(rules[i].mask.value, u)
    ensures D.GetItem(RanAll(rules, s, out, e, now).items, u) == D.GetItem(s.items, u)
    decreases |rules|
  {
    if |rules| > 0 {
      ModifiedLeavesUnmatched(rules[0], s, out, e, now, u);
      RanAllLeavesUnmatched(rules[1..], Modified(rules[0], s, out, e, now), out, e, now, u);
    }
  }

  /** `RunAll(modifiers, dataset)`. */
  method RunAll(rules: seq<DcmModify>, ds: D.DcmDataset, gen: IdGenerator, out: Outside, now: Clock)
    requires ds.Valid()
    modifies ds, gen
    ensures ds.Valid() && ds.transferSyntax == old(ds.transferSyntax)
    ensures State(ds.items, gen.lastgid) ==
            RanAll(rules, State(old(ds.items), old(gen.lastgid)), out, ds.transferSyntax.endian, now)
  {
    for k := 0 to |rules|
      invariant ds.Valid() && ds.transferSyntax == old(ds.transferSyntax)
      invariant RanAll(rules[k..], State(ds.items, gen.lastgid), out, ds.transferSyntax.endian, now) ==
                RanAll(rules, State(old(ds.items), old(gen.lastgid)), out, ds.transferSyntax.endian, now)
    {
      assert rules[k..][1..] == rules[k + 1..];
      Modify(rules[k], ds, gen, out, now);
    }
  }

  /** Each tag of `ts` added to `acc` unless it is there already. */
  function AddNew(acc: seq<D.Tag>, ts: seq<D.Tag>): seq<D.Tag>
    decreases |ts|
  {
    if |ts| == 0 then acc else AddNew(if ts[0] in acc then acc else acc + [ts[0]], ts[1..])
  }

  /** The tags the rules with a parseable mask match, each once, in the
      order first met. */
  function CollectTags(acc: seq<D.Tag>, rules: seq<DcmModify>, items: seq<D.Item>): seq<D.Tag>
    decreases |rules|
  {
    if |rules| == 0 then acc
    else CollectTags(if rules[0].mask.None? then acc else AddNew(acc, D.MaskedTags(items, rules[0].mask.value)),
                     rules[1..], items)
  }

  predicate NoDuplicates(ts: seq<D.Tag>) {
    forall i, j :: 0 <= i < j < |ts| ==> ts[i] != ts[j]
  }

  lemma {:induction false} AddNewMembers(acc: seq<D.Tag>, ts: seq<D.Tag>)
    requires NoDuplicates(acc)
    ensures NoDuplicates(AddNew(acc, ts))
    ensures forall t :: t in AddNew(acc, ts) <==> t in acc || t in ts
    decreases |ts|
  {
    if |ts| > 0 {
      var next := if ts[0] in acc then acc else acc + [ts[0]];
      AddNewMembers(next, ts[1..]);
      assert ts == [ts[0]] + ts[1..];
    }
  }

  /** Some rule with a parseable mask matches the tag. */
  predicate SomeRuleMatches(rules: seq<DcmModify>, t: D.Tag) {
    exists i :: 0 <= i < |rules| && rules[i].mask.Some? && D.IsMatch(rules[i].mask.value, t)
  }

  lemma SomeRuleMatchesCons(rules: seq<DcmModify>, t: D.Tag)
    requires |rules| > 0
    ensures SomeRuleMatches(rules, t) <==>
            (rules[0].mask.Some? && D.IsMatch(rules[0].mask.value, t)) || SomeRuleMatches(rules[1..], t)
  {
    if SomeRuleMatches(rules, t) {
      var i :| 0 <= i < |rules| && rules[i].mask.Some? && D.IsMatch(rules[i].mask.value, t);
      if i > 0 {
        assert rules[1..][i - 1] == rules[i];
      }
    }
    if SomeRuleMatches(rules[1..], t) {
      var i :| 0 <= i < |rules[1..]| && rules[1..][i].mask.Some? && D.IsMatch(rules[1..][i].mask.value, t);
      assert rules[i + 1] == rules[1..][i];
    }
  }

  /** `GetTags(modifiers, dataset)` lists each tag of the dataset that some
      rule with a parseable mask matches, exactly once. */
  lemma {:induction false} CollectTagsMembers(acc: seq<D.Tag>, rules: seq<DcmModify>, items: seq<D.Item>)
    requires NoDuplicates(acc)
    ensures NoDuplicates(CollectTags(acc, rules, items))
    ensures forall t :: t in CollectTags(acc, rules, items) <==>
      t in acc || (t in D.Tags(items) && SomeRuleMatches(rules, t))
    decreases |rules|
  {
    if |rules| > 0 {
      var next := if rules[0].mask.None? then acc else AddNew(acc, D.MaskedTags(items, rules[0].mask.value));
      if rules[0].mask.Some? {
        AddNewMembers(acc, D.MaskedTags(items, rules[0].mask.value));
      }
      CollectTagsMembers(next, rules[1..], items);
      forall t {
        SomeRuleMatchesCons(rules, t);
      }
    }
  }

  /** `GetTags(modifiers, dataset)`: the list grows by each masked tag not
      already in it. */
  method GetTags(rules: seq<DcmModify>, items: seq<D.Item>) returns (tags: seq<D.Tag>)
    ensures tags == CollectTags([], rules, items)
  {
    tags := [];
    for k := 0 to |rules|
      invariant CollectTags(tags, rules[k..], items) == CollectTags([], rules, items)
    {
      assert rules[k..][1..] == rules[k + 1..];
      if rules[k].mask.Some? {
        var masked := D.MaskedTags(items, rules[k].mask.value);
        ghost var before := tags;
        for j := 0 to |masked|
          invariant AddNew(tags, masked[j..]) == AddNew(before, masked)
        {
          assert masked[j..][1..] == masked[j + 1..];
          if masked[j] !in tags {
            tags := tags + [masked[j]];
          }
        }
      }
    }
  }
}
