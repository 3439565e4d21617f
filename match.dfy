/** `DcmMatch` of Dicom/Data/DcmMatch.cs: a rule that compares the value
    string of one element of a dataset with a fixed string, and `MatchAll`,
    the conjunction of a list of rules. `Wildcard.Match` and
    `Regex.IsMatch` are outside this model and come in as parameters; the
    rule holds its tag already parsed. */
module Match {
  import D = Dataset
  import Text

  datatype MatchOp = Equals | NotEquals | StartsWith | EndsWith | Contains | OneOf
                   | Wildcard | Regex | Exists | NotExists

  datatype DcmMatch = DcmMatch(tag: D.Tag, op: MatchOp, value: string)

  /** `Match(ds)`. An absent element matches nothing, and neither does a
      present one under `Exists` or `NotExists`: the first falls through
      the switch, the second is refused before it. */
  function Matches(rule: DcmMatch, items: seq<D.Item>,
                   wildcard: (string, string) -> bool, regex: (string, string) -> bool): (b: bool)
    ensures D.GetElement(items, rule.tag).None? ==> !b
    ensures rule.op == Exists || rule.op == NotExists ==> !b
  {
    var elem := D.GetElement(items, rule.tag);
    if rule.op == Exists && elem.None? then false
    else if rule.op == NotExists && elem.Some? then false
    else if elem.None? then false
    else
      var value := D.ValueString(elem.value.value);
      match rule.op
      case Equals => value == rule.value
      case NotEquals => value != rule.value
      case StartsWith => Text.StartsWith(value, rule.value)
      case EndsWith => Text.EndsWith(value, rule.value)
      case Contains => Text.Contains(value, rule.value)
      case Wildcard => wildcard(rule.value, value)
      case Regex => regex(rule.value, value)
      case OneOf => rule.value in Text.Split(value, '\\')
      case _ => false
  }

  /** On a present element `NotEquals` is the negation of `Equals`; on an
      absent one both fail. */
  lemma NotEqualsNegates(tag: D.Tag, v: string, items: seq<D.Item>,
                         wildcard: (string, string) -> bool, regex: (string, string) -> bool)
    ensures D.GetElement(items, tag).Some? ==>
      Matches(DcmMatch(tag, NotEquals, v), items, wildcard, regex) ==
      !Matches(DcmMatch(tag, Equals, v), items, wildcard, regex)
  {
  }

  /** A value string that equals the rule's string also starts with it,
      ends with it, contains it, and (when it has no separator) is one of
      its own components. */
  lemma EqualsImpliesOthers(tag: D.Tag, v: string, items: seq<D.Item>,
                            wildcard: (string, string) -> bool, regex: (string, string) -> bool)
    requires Matches(DcmMatch(tag, Equals, v), items, wildcard, regex)
    ensures Matches(DcmMatch(tag, StartsWith, v), items, wildcard, regex)
    ensures Matches(DcmMatch(tag, EndsWith, v), items, wildcard, regex)
    ensures Matches(DcmMatch(tag, Contains, v), items, wildcard, regex)
    ensures '\\' !in v ==> Matches(DcmMatch(tag, OneOf, v), items, wildcard, regex)
  {
    var value := D.ValueString(D.GetElement(items, tag).value.value);
    assert value[..|v|] == v && value[|value| - |v|..] == v;
    if '\\' !in v {
      Text.SplitJoin([v], '\\');
    }
  }

  /** A string containing the rule's string at its start contains it. */
  lemma StartsWithImpliesContains(tag: D.Tag, v: string, items: seq<D.Item>,
                                  wildcard: (string, string) -> bool, regex: (string, string) -> bool)
    requires Matches(DcmMatch(tag, StartsWith, v), items, wildcard, regex)
    ensures Matches(DcmMatch(tag, Contains, v), items, wildcard, regex)
  {
  }

  /** `OneOf` against a multi-valued string: the rule's string matches
      exactly when it is one of the values. */
  lemma OneOfIsMembership(values: seq<string>, v: string)
    requires |values| >= 1
    requires forall i :: 0 <= i < |values| ==> '\\' !in values[i]
    ensures v in Text.Split(Text.Join(values, '\\'), '\\') <==> v in values
  {
    Text.SplitJoin(values, '\\');
  }

  /** `MatchAll`: stops at the first rule that fails; true for no rules. */
  method MatchAll(rules: seq<DcmMatch>, items: seq<D.Item>,
                  wildcard: (string, string) -> bool, regex: (string, string) -> bool)
    returns (ok: bool)
    ensures ok <==> forall i :: 0 <= i < |rules| ==> Matches(rules[i], items, wildcard, regex)
    ensures |rules| == 0 ==> ok
  {
    for i := 0 to |rules|
      invariant forall k :: 0 <= k < i ==> Matches(rules[k], items, wildcard, regex)
    {
      if !Matches(rules[i], items, wildcard, regex) {
        return false;
      }
    }
    return true;
  }
}
