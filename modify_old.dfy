/** `DcmModify` of Dicom/Data/DcmModify.cs, the older rule engine: the rule
    holds a parsed tag mask, `Modify` lists the matching tags before any rule
    runs, and the operators are `Remove`, `AddOrReplace`, `Map`, `Split`,
    `Regex` and four user callbacks. `String.Split` with a character set,
    `String.Format`, `Regex.Replace`, the tag dictionary and the registered
    callbacks come in as an `Outside` value. `GetMaskedTags` of this
    version's dataset is taken to list the matching tags in table order, as
    trunk/Dicom/Data/DcmDataset.cs does. */
module ModifyOld {
  import opened Wrappers
  import Text
  import VRs
  import EndianIO
  import D = Dataset

  datatype ModifyOp = Remove | AddOrReplace | Map | Split | Regex | UserOp1 | UserOp2 | UserOp3 | UserOp4

  predicate IsUserOp(op: ModifyOp) {
    op.UserOp1? || op.UserOp2? || op.UserOp3? || op.UserOp4?
  }

  /** The name `Enum.ToString` gives an operator. */
  function OpName(op: ModifyOp): (s: string)
    ensures |s| > 0
  {
    match op
    case Remove => "Remove"
    case AddOrReplace => "AddOrReplace"
    case Map => "Map"
    case Split => "Split"
    case Regex => "Regex"
    case UserOp1 => "UserOp1"
    case UserOp2 => "UserOp2"
    case UserOp3 => "UserOp3"
    case UserOp4 => "UserOp4"
  }

  /** Different operators have different names. */
  lemma OpNameInjective(a: ModifyOp, b: ModifyOp)
    requires OpName(a) == OpName(b)
    ensures a == b
  {
    match a
    case _ =>
      assert OpName(a)[..|OpName(a)|] == OpName(b)[..|OpName(b)|];
  }

  datatype DcmModify = DcmModify(mask: D.TagMask, op: ModifyOp, input: string, output: string)

  /** What a rule calls outside this model; `None` stands for an exception. */
  datatype Outside = Outside(
    /** `String.Format(output, value.Split(input.ToCharArray()))`, given (value, input, output). */
    splitFormat: (string, string, string) -> Option<string>,
    /** `Regex.Replace(value, input, output)`, given (value, input, output). */
    regexReplace: (string, string, string) -> Option<string>,
    /** `tag.Entry.DefaultVR`. */
    defaultVR: D.Tag -> VRs.DcmVR,
    /** The user operators whose static callback is set. */
    callbacks: set<ModifyOp>)

  /** `ToString()`: `'mask' op 'input'->'output'`, given the mask's own text. */
  function Describe(rule: DcmModify, maskText: string): (s: string)
    ensures |s| == |maskText| + |OpName(rule.op)| + |rule.input| + |rule.output| + 10
    ensures s[..|maskText| + 3] == "'" + maskText + "' "
    ensures s[|s| - |rule.output| - 2..] == "'" + rule.output + "'"
  {
    var s := "'" + maskText + "' " + OpName(rule.op) + " '" + rule.input + "'->'" + rule.output + "'";
    assert s == ("'" + maskText + "' ") + (OpName(rule.op) + " '" + rule.input + "'->") + ("'" + rule.output + "'");
    s
  }

  /** The operator sits between the mask and the input, so two rules with
      the same mask text and the same input and output are described alike
      only when their operators agree. */
  lemma DescribeShowsOp(a: DcmModify, b: DcmModify, maskText: string)
    requires a.input == b.input && a.output == b.output
    requires Describe(a, maskText) == Describe(b, maskText)
    ensures a.op == b.op
  {
    var k := |maskText| + 3;
    var sa := Describe(a, maskText);
    var tail := " '" + a.input + "'->'" + a.output + "'";
    assert sa == ("'" + maskText + "' ") + OpName(a.op) + tail;
    assert Describe(b, maskText) == ("'" + maskText + "' ") + OpName(b.op) + tail;
    assert |OpName(a.op)| == |OpName(b.op)|;
    assert OpName(a.op) == sa[k..k + |OpName(a.op)|];
    assert OpName(b.op) == Describe(b, maskText)[k..k + |OpName(b.op)|];
    OpNameInjective(a.op, b.op);
  }

  /** `elem.SetValueString(s)` on the element stored under its tag; a text
      that does not parse throws and the element keeps its value. */
  function SetValueIn(items: seq<D.Item>, elem: D.Item, s: string): seq<D.Item>
    requires elem.Element?
  {
    match D.ParseValueString(elem.value, s)
    case Success(v) => D.Insert(items, elem.(value := v))
    case Failure(_) => items
  }

  /** The value-editing operators: `None` when the element is left alone. */
  function EditedValue(rule: DcmModify, value: string, out: Outside): (r: Option<string>)
    ensures rule.op == Map ==> (r.Some? <==> value == rule.input) && (r.Some? ==> r.value == rule.output)
    ensures rule.op == Remove || rule.op == AddOrReplace || IsUserOp(rule.op) ==> r == None
  {
    match rule.op
    case Map => if rule.input == value then Some(rule.output) else None
    case Split => out.splitFormat(value, rule.input, rule.output)
    case Regex => out.regexReplace(value, rule.input, rule.output)
    case _ => None
  }

  /** `Apply(dataset, tag)` as written: `AddOrReplace` acts only when the
      tag holds no element; an element already there falls through every
      later test and keeps its value. */
  function ApplyAsWritten(rule: DcmModify, items: seq<D.Item>, t: D.Tag, out: Outside, e: EndianIO.Endian): seq<D.Item>
  {
    if rule.op == Remove then D.Without(items, t)
    else if IsUserOp(rule.op) then items
    else
      var elem := D.GetElement(items, t);
      if elem.None? then
        if rule.op == AddOrReplace then D.AddedWithValueString(items, t, out.defaultVR(t), rule.output, e) else items
      else
        var s := EditedValue(rule, D.ValueString(elem.value.value), out);
        if s.None? then items else SetValueIn(items, elem.value, s.value)
  }

  /** As written, `AddOrReplace` on a tag holding an element changes
      nothing. */
  lemma AsWrittenKeepsElement(rule: DcmModify, items: seq<D.Item>, t: D.Tag, out: Outside, e: EndianIO.Endian)
    requires rule.op == AddOrReplace && D.GetElement(items, t).Some?
    ensures ApplyAsWritten(rule, items, t, out, e) == items
  {
  }

  /** A table holding (0010,0010) with the text "X": `AddOrReplace` with
      output "Y" leaves "X" there. */
  lemma AsWrittenDoesNotReplace(m: D.TagMask, out: Outside)
    ensures var x := D.Element(D.Tag(0x0010, 0x0010), VRs.PN, D.Text("X"), EndianIO.Little);
            var rule := DcmModify(m, AddOrReplace, "", "Y");
            D.GetValueString(ApplyAsWritten(rule, [x], x.tag, out, EndianIO.Little), x.tag) == Some("X")
  {
  }

  /** `Apply(dataset, tag)` with `AddOrReplace` storing the output whether
      or not the tag holds an element, as its name says and as
      trunk/Dicom/Data/DcmModify.cs does. A set user callback gets the
      dataset; `Apply` reports the call, and the table is taken to be
      unchanged by it. */
  function ApplyTo(rule: DcmModify, items: seq<D.Item>, t: D.Tag, out: Outside, e: EndianIO.Endian): (r: seq<D.Item>)
    ensures IsUserOp(rule.op) ==> r == items
    ensures (rule.op == Map || rule.op == Split || rule.op == Regex) && D.GetElement(items, t).None? ==> r == items
  {
    if rule.op == Remove then D.Without(items, t)
    else if IsUserOp(rule.op) then items
    else if rule.op == AddOrReplace then D.AddedWithValueString(items, t, out.defaultVR(t), rule.output, e)
    else
      var elem := D.GetElement(items, t);
      if elem.None? then items
      else
        var s := EditedValue(rule, D.ValueString(elem.value.value), out);
        if s.None? then items else SetValueIn(items, elem.value, s.value)
  }

  /** The two agree except on `AddOrReplace` over an element. */
  lemma ApplyAgrees(rule: DcmModify, items: seq<D.Item>, t: D.Tag, out: Outside, e: EndianIO.Endian)
    requires rule.op != AddOrReplace || D.GetElement(items, t).None?
    ensures ApplyTo(rule, items, t, out, e) == ApplyAsWritten(rule, items, t, out, e)
  {
  }

  /** `AddOrReplace` leaves an element of the tag's dictionary VR, holding
      the output when that VR is a string VR. */
  lemma AddOrReplaceSets(rule: DcmModify, items: seq<D.Item>, t: D.Tag, out: Outside, e: EndianIO.Endian)
    requires rule.op == AddOrReplace
    ensures var r := ApplyTo(rule, items, t, out, e);
      D.GetElement(r, t).Some? && D.GetElement(r, t).value.vr == out.defaultVR(t) &&
      (out.defaultVR(t).isString ==> D.GetValueString(r, t) == Some(rule.output))
  {
    D.AddedWithValueStringGet(items, t, out.defaultVR(t), rule.output, e, t);
  }

  /** `Map` on a text element: the output replaces the value exactly when
      the value equals the input. */
  lemma MapReplacesEqual(rule: DcmModify, items: seq<D.Item>, t: D.Tag, out: Outside, e: EndianIO.Endian)
    requires rule.op == Map
    requires D.GetElement(items, t).Some? && D.GetElement(items, t).value.value.Text?
    ensures D.GetValueString(ApplyTo(rule, items, t, out, e), t) ==
            if D.GetValueString(items, t) == Some(rule.input) then Some(rule.output) else D.GetValueString(items, t)
  {
    var elem := D.GetElement(items, t).value;
    if elem.value.text == rule.input {
      D.GetItemInsert(items, elem.(value := D.Text(rule.output)), t);
    }
  }

  /** A rule applied to one tag touches no other tag. */
  lemma ApplyToOtherTags(rule: DcmModify, items: seq<D.Item>, t: D.Tag, out: Outside, e: EndianIO.Endian, u: D.Tag)
    requires u != t
    ensures D.GetItem(ApplyTo(rule, items, t, out, e), u) == D.GetItem(items, u)
  {
    if rule.op == Remove {
      D.GetItemWithout(items, t, u);
    } else if rule.op == AddOrReplace {
      D.AddedWithValueStringGet(items, t, out.defaultVR(t), rule.output, e, u);
    } else if !IsUserOp(rule.op) {
      var elem := D.GetElement(items, t);
      if elem.Some? {
        var s := EditedValue(rule, D.ValueString(elem.value.value), out);
        if s.Some? && D.ParseValueString(elem.value.value, s.value).Success? {
          D.GetItemInsert(items, elem.value.(value := D.ParseValueString(elem.value.value, s.value).value), u);
        }
      }
    }
  }

  /** The rule applied to each tag of a list in turn. */
  function ModifyTags(rule: DcmModify, items: seq<D.Item>, tags: seq<D.Tag>, out: Outside, e: EndianIO.Endian): seq<D.Item>
    decreases |tags|
  {
    if |tags| == 0 then items else ModifyTags(rule, ApplyTo(rule, items, tags[0], out, e), tags[1..], out, e)
  }

  /** `Modify(dataset)`: the matching tags are listed first. */
  function Modified(rule: DcmModify, items: seq<D.Item>, out: Outside, e: EndianIO.Endian): seq<D.Item> {
    ModifyTags(rule, items, D.MaskedTags(items, rule.mask), out, e)
  }

  lemma {:induction false} ModifyTagsOthers(rule: DcmModify, items: seq<D.Item>, tags: seq<D.Tag>,
                                            out: Outside, e: EndianIO.Endian, u: D.Tag)
    requires u !in tags
    ensures D.GetItem(ModifyTags(rule, items, tags, out, e), u) == D.GetItem(items, u)
    decreases |tags|
  {
    if |tags| > 0 {
      ApplyToOtherTags(rule, items, tags[0], out, e, u);
      ModifyTagsOthers(rule, ApplyTo(rule, items, tags[0], out, e), tags[1..], out, e, u);
    }
  }

  lemma {:induction false} ModifyTagsRemove(rule: DcmModify, items: seq<D.Item>, tags: seq<D.Tag>,
                                            out: Outside, e: EndianIO.Endian, u: D.Tag)
    requires rule.op == Remove
    ensures D.GetItem(ModifyTags(rule, items, tags, out, e), u) == if u in tags then None else D.GetItem(items, u)
    decreases |tags|
  {
    if |tags| > 0 {
      D.GetItemWithout(items, tags[0], u);
      ModifyTagsRemove(rule, D.Without(items, tags[0]), tags[1..], out, e, u);
    }
  }

  /** A tag the mask does not match keeps its item, whatever the rule. */
  lemma ModifiedLeavesUnmatched(rule: DcmModify, items: seq<D.Item>, out: Outside, e: EndianIO.Endian, u: D.Tag)
    requires !D.IsMatch(rule.mask, u)
    ensures D.GetItem(Modified(rule, items, out, e), u) == D.GetItem(items, u)
  {
    ModifyTagsOthers(rule, items, D.MaskedTags(items, rule.mask), out, e, u);
  }

  /** Because the tags are listed first, a `Remove` rule deletes every tag
      its mask matches and no other. */
  lemma ModifiedRemove(rule: DcmModify, items: seq<D.Item>, out: Outside, e: EndianIO.Endian, u: D.Tag)
    requires rule.op == Remove
    ensures D.GetItem(Modified(rule, items, out, e), u) == if D.IsMatch(rule.mask, u) then None else D.GetItem(items, u)
  {
    ModifyTagsRemove(rule, items, D.MaskedTags(items, rule.mask), out, e, u);
  }

  /** `Apply(dataset, tag)`. `call` names the user callback that is invoked
      with the dataset; every exception is caught and leaves the dataset as
      it was at that point. */
  method Apply(rule: DcmModify, ds: D.DcmDataset, t: D.Tag, out: Outside) returns (call: Option<ModifyOp>)
    requires ds.Valid()
    modifies ds
    ensures ds.Valid() && ds.transferSyntax == old(ds.transferSyntax)
    ensures ds.items == ApplyTo(rule, old(ds.items), t, out, ds.transferSyntax.endian)
    ensures call == if IsUserOp(rule.op) && rule.op in out.callbacks then Some(rule.op) else None
  {
    call := None;
    if rule.op == Remove {
      ds.Remove(t);
      return;
    }
    if IsUserOp(rule.op) {
      if rule.op in out.callbacks {
        call := Some(rule.op);
      }
      return;
    }
    if rule.op == AddOrReplace {
      var added := ds.AddElementWithValueString(t, out.defaultVR(t), rule.output);
      return;
    }
    var elem := D.GetElement(ds.items, t);
    if elem.None? {
      return;
    }
    var s := EditedValue(rule, D.ValueString(elem.value.value), out);
    if s.None? {
      return;
    }
    var parsed := D.ParseValueString(elem.value.value, s.value);
    if parsed.Failure? {
      return;
    }
    ds.AddItem(elem.value.(value := parsed.value));
  }

  /** `Modify(dataset)`: lists the matching tags, then applies the rule to
      each. */
  method Modify(rule: DcmModify, ds: D.DcmDataset, out: Outside)
    requires ds.Valid()
    modifies ds
    ensures ds.Valid() && ds.transferSyntax == old(ds.transferSyntax)
    ensures ds.items == Modified(rule, old(ds.items), out, ds.transferSyntax.endian)
  {
    var tags := D.MaskedTags(ds.items, rule.mask);
    for k := 0 to |tags|
      invariant ds.Valid() && ds.transferSyntax == old(ds.transferSyntax)
      invariant ModifyTags(rule, ds.items, tags[k..], out, ds.transferSyntax.endian) ==
                Modified(rule, old(ds.items), out, ds.transferSyntax.endian)
    {
      assert tags[k..][1..] == tags[k + 1..];
      var call := Apply(rule, ds, tags[k], out);
    }
  }
}
