/** The .NET string operations the library leans on: decimal formatting of
    integers (`Int64.ToString`, `StringBuilder.Append(long)`), `int.Parse`
    with its default number style, and `String.Split(char)` / `String.Join`. */
module Text {
  import opened Wrappers
  import opened Ints

  predicate IsDigit(c: char) {
    '0' <= c <= '9'
  }

  predicate AllDigits(s: string) {
    forall i :: 0 <= i < |s| ==> IsDigit(s[i])
  }

  function DigitChar(d: nat): (c: char)
    requires d < 10
    ensures IsDigit(c) && c as int - '0' as int == d
  {
    ('0' as int + d) as char
  }

  /** The decimal digits of `n`, most significant first, without leading zeros. */
  function Digits(n: nat): (s: string)
    ensures |s| >= 1 && AllDigits(s)
    ensures |s| > 1 ==> s[0] != '0'
    decreases n
  {
    if n < 10 then [DigitChar(n)] else Digits(n / 10) + [DigitChar(n % 10)]
  }

  /** The value of a string of decimal digits (leading zeros allowed). */
  function DigitsValue(s: string): nat
    requires AllDigits(s)
  {
    if |s| == 0 then 0 else DigitsValue(s[..|s| - 1]) * 10 + (s[|s| - 1] as int - '0' as int)
  }

  /** Reading back the digits of `n` gives `n`. */
  lemma {:induction false} DigitsRoundTrip(n: nat)
    ensures DigitsValue(Digits(n)) == n
    decreases n
  {
    if n >= 10 {
      var s := Digits(n);
      assert s[..|s| - 1] == Digits(n / 10);
      DigitsRoundTrip(n / 10);
    }
  }

  /** `long.ToString()` in the invariant culture: a minus sign, then the digits. */
  function IntToString(n: int): (s: string)
    ensures |s| >= 1
    ensures n >= 0 ==> s == Digits(n)
    ensures n < 0 ==> s == "-" + Digits(-n)
  {
    if n < 0 then "-" + Digits(-n) else Digits(n)
  }

  /** Different integers print differently. */
  lemma IntToStringInjective(a: int, b: int)
    requires IntToString(a) == IntToString(b)
    ensures a == b
  {
    if a < 0 && b < 0 {
      SignedDigits(Digits(-a), Digits(-b));
      DigitsInjective(-a, -b);
    } else if a >= 0 && b >= 0 {
      DigitsInjective(a, b);
    }
  }

  lemma SignedDigits(x: string, y: string)
    requires "-" + x == "-" + y
    ensures x == y
  {
    assert x == ("-" + x)[1..];
  }

  lemma DigitsInjective(m: nat, n: nat)
    requires Digits(m) == Digits(n)
    ensures m == n
  {
    DigitsRoundTrip(m);
    DigitsRoundTrip(n);
  }

  /** The white space `NumberStyles.Integer` skips at either end. */
  predicate IsWhite(c: char) {
    c == ' ' || c == '\t' || c == '\n' || c == '\r' || c as int == 0x0B || c as int == 0x0C
  }

  function TrimStart(s: string): (r: string)
    ensures |r| <= |s| && r == s[|s| - |r|..]
    ensures |r| > 0 ==> !IsWhite(r[0])
  {
    if |s| > 0 && IsWhite(s[0]) then TrimStart(s[1..]) else s
  }

  function TrimEnd(s: string): (r: string)
    ensures |r| <= |s| && r == s[..|r|]
    ensures |r| > 0 ==> !IsWhite(r[|r| - 1])
  {
    if |s| > 0 && IsWhite(s[|s| - 1]) then TrimEnd(s[..|s| - 1]) else s
  }

  /** `int.Parse(s)`: optional white space, an optional sign, at least one
      digit, optional white space; `None` where .NET throws a
      FormatException or an OverflowException. */
  function ParseInt32(s: string): (r: Option<int32>)
  {
    ParseTrimmed(TrimEnd(TrimStart(s)))
  }

  /** `int.Parse` once the white space is gone. */
  function ParseTrimmed(t: string): (r: Option<int32>)
  {
    if |t| > 0 && (t[0] == '-' || t[0] == '+') then
      match ParseDigits(t[1..])
      case None => None
      case Some(d) =>
        var v := if t[0] == '-' then -(d as int) else d;
        if -TWO_31 <= v < TWO_31 then Some(v) else None
    else
      match ParseDigits(t)
      case None => None
      case Some(d) => if d < TWO_31 then Some(d) else None
  }

  /** The value of one or more decimal digits, `None` for anything else. */
  function ParseDigits(t: string): (r: Option<nat>)
    ensures r.Some? <==> |t| > 0 && AllDigits(t)
  {
    if |t| == 0 || !AllDigits(t) then None else Some(DigitsValue(t))
  }

  /** A string that neither starts nor ends with white space is its own trim. */
  lemma TrimUnchanged(s: string)
    requires |s| > 0 && !IsWhite(s[0]) && !IsWhite(s[|s| - 1])
    ensures TrimEnd(TrimStart(s)) == s
  {
  }

  /** Without white space at either end, `int.Parse` reads the string as it is. */
  lemma ParseUntrimmed(s: string)
    requires |s| > 0 && !IsWhite(s[0]) && !IsWhite(s[|s| - 1])
    ensures ParseInt32(s) == ParseTrimmed(s)
  {
    TrimUnchanged(s);
  }

  /** `int.Parse` of a digit string with a leading minus sign. */
  lemma ParseNegative(ds: string)
    requires |ds| >= 1 && AllDigits(ds)
    ensures ParseInt32("-" + ds) == if -TWO_31 <= 0 - DigitsValue(ds) then Some(0 - DigitsValue(ds)) else None
  {
    var s := "-" + ds;
    assert s[|s| - 1] == ds[|ds| - 1];
    ParseUntrimmed(s);
    NegativeTrimmed(ds);
  }

  lemma NegativeTrimmed(ds: string)
    requires |ds| >= 1 && AllDigits(ds)
    ensures ParseTrimmed("-" + ds) == if -TWO_31 <= 0 - DigitsValue(ds) then Some(0 - DigitsValue(ds)) else None
  {
    var s := "-" + ds;
    var d := DigitsValue(ds);
    assert ParseDigits(ds) == Some(d);
    assert s[0] == '-' && s[1..] == ds;
  }

  /** `int.Parse` of a plain digit string. */
  lemma ParseUnsigned(ds: string)
    requires |ds| >= 1 && AllDigits(ds)
    ensures ParseInt32(ds) == if DigitsValue(ds) < TWO_31 then Some(DigitsValue(ds)) else None
  {
    assert IsDigit(ds[0]) && IsDigit(ds[|ds| - 1]);
    ParseUntrimmed(ds);
    assert ParseDigits(ds) == Some(DigitsValue(ds));
  }

  /** `int.Parse` reads back every 32-bit integer `ToString` writes. */
  lemma ParseIntToString(n: int32)
    ensures ParseInt32(IntToString(n)) == Some(n)
  {
    if n < 0 {
      ParseNegativeToString(n);
    } else {
      ParseNonNegativeToString(n);
    }
  }

  lemma ParseNegativeToString(n: int32)
    requires n < 0
    ensures ParseInt32(IntToString(n)) == Some(n)
  {
    var m: nat := -(n as int);
    var ds := Digits(m);
    DigitsRoundTrip(m);
    ReadNegative(ds, m);
    assert IntToString(n) == "-" + ds;
  }

  lemma ParseNonNegativeToString(n: int32)
    requires n >= 0
    ensures ParseInt32(IntToString(n)) == Some(n)
  {
    var ds := Digits(n);
    DigitsRoundTrip(n);
    ReadUnsigned(ds, n);
    assert IntToString(n) == ds;
  }

  lemma ReadNegative(ds: string, m: nat)
    requires |ds| >= 1 && AllDigits(ds) && DigitsValue(ds) == m && 0 < m <= TWO_31
    ensures ParseInt32("-" + ds) == Some(0 - m)
  {
    ParseNegative(ds);
  }

  lemma ReadUnsigned(ds: string, m: nat)
    requires |ds| >= 1 && AllDigits(ds) && DigitsValue(ds) == m && m < TWO_31
    ensures ParseInt32(ds) == Some(m)
  {
    ParseUnsigned(ds);
  }

  /** `String.Split(c)`: the pieces between separators, empty pieces kept. */
  function Split(s: string, c: char): (parts: seq<string>)
    ensures |parts| >= 1
    decreases |s|
  {
    if |s| == 0 then [""]
    else
      var rest := Split(s[1..], c);
      if s[0] == c then [""] + rest else [[s[0]] + rest[0]] + rest[1..]
  }

  /** `String.Join(c, parts)`. */
  function Join(parts: seq<string>, c: char): (s: string)
    requires |parts| >= 1
    decreases |parts|
  {
    if |parts| == 1 then parts[0] else parts[0] + [c] + Join(parts[1..], c)
  }

  /** No piece contains the separator. */
  lemma {:induction false} SplitPiecesHaveNoSeparator(s: string, c: char)
    ensures forall i :: 0 <= i < |Split(s, c)| ==> c !in Split(s, c)[i]
    decreases |s|
  {
    if |s| > 0 {
      SplitPiecesHaveNoSeparator(s[1..], c);
    }
  }

  /** Joining the pieces with the separator gives back the string. */
  lemma {:induction false} JoinSplit(s: string, c: char)
    ensures Join(Split(s, c), c) == s
    decreases |s|
  {
    if |s| > 0 {
      var rest := Split(s[1..], c);
      JoinSplit(s[1..], c);
      if s[0] != c {
        var parts := Split(s, c);
        if |rest| == 1 {
          assert parts == [[s[0]] + rest[0]];
        } else {
          assert parts[1..] == rest[1..];
          assert Join(rest, c) == rest[0] + [c] + Join(rest[1..], c);
        }
      }
    }
  }

  /** Splitting a join of separator-free pieces gives back the pieces. */
  lemma {:induction false} SplitJoin(parts: seq<string>, c: char)
    requires |parts| >= 1
    requires forall i :: 0 <= i < |parts| ==> c !in parts[i]
    ensures Split(Join(parts, c), c) == parts
    decreases |parts|, |parts[0]|
  {
    if |parts[0]| > 0 {
      var p := parts[0];
      var tail := [p[1..]] + parts[1..];
      assert Join(parts, c) == [p[0]] + Join(tail, c) by {
        if |parts| > 1 {
          assert Join(tail, c) == p[1..] + [c] + Join(parts[1..], c);
        }
      }
      assert c !in p[1..];
      SplitJoin(tail, c);
      assert Join(parts, c)[1..] == Join(tail, c);
      assert [p[0]] + p[1..] == p;
      assert tail[1..] == parts[1..];
      assert parts == [[p[0]] + tail[0]] + tail[1..];
    } else if |parts| > 1 {
      SplitJoin(parts[1..], c);
      assert Join(parts, c)[1..] == Join(parts[1..], c);
    }
  }

  /** The number of pieces is one more than the number of separators. */
  function Count(s: string, c: char): (n: nat)
    ensures n <= |s|
  {
    if |s| == 0 then 0 else (if s[0] == c then 1 else 0) + Count(s[1..], c)
  }

  lemma {:induction false} SplitCount(s: string, c: char)
    ensures |Split(s, c)| == Count(s, c) + 1
    decreases |s|
  {
    if |s| > 0 {
      SplitCount(s[1..], c);
    }
  }

  function StartsWith(s: string, prefix: string): bool {
    |prefix| <= |s| && s[..|prefix|] == prefix
  }

  function EndsWith(s: string, suffix: string): bool {
    |suffix| <= |s| && s[|s| - |suffix|..] == suffix
  }

  /** `String.Contains`: the needle starts at some position of `s`. */
  predicate Contains(s: string, needle: string)
    decreases |s|
  {
    StartsWith(s, needle) || (|s| > 0 && Contains(s[1..], needle))
  }
}
