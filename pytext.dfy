/** The parts of Python's `str` and `int` built-ins that the game code relies on,
    over ASCII text: case mapping, whitespace stripping, `split` and `join`,
    substring search, `int(text)`, `str(number)` and the `repr` of a list of
    integers. */
module PyText {
  import opened Wrappers

  predicate IsDigit(c: char) { '0' <= c <= '9' }

  /** `str.isspace()` restricted to ASCII; `int()`, `str.strip()` and the `\s`
      of `re` accept the same characters. */
  predicate IsSpace(c: char) { c == ' ' || '\t' <= c <= '\r' || '\U{1C}' <= c <= '\U{1F}' }

  predicate IsUpper(c: char) { 'A' <= c <= 'Z' }

  predicate IsLower(c: char) { 'a' <= c <= 'z' }

  predicate AllDigits(s: string) { forall k :: 0 <= k < |s| ==> IsDigit(s[k]) }

  predicate NoUpper(s: string) { forall k :: 0 <= k < |s| ==> !IsUpper(s[k]) }

  // ---------------------------------------------------------------- case

  function LowerChar(c: char): char {
    if IsUpper(c) then (c as int + 32) as char else c
  }

  function UpperChar(c: char): char {
    if IsLower(c) then (c as int - 32) as char else c
  }

  /** `s.lower()` */
  function Lower(s: string): (r: string)
    ensures |r| == |s|
    ensures forall k :: 0 <= k < |s| ==> r[k] == LowerChar(s[k])
  {
    seq(|s|, k requires 0 <= k < |s| => LowerChar(s[k]))
  }

  /** `s.upper()` */
  function Upper(s: string): (r: string)
    ensures |r| == |s|
    ensures forall k :: 0 <= k < |s| ==> r[k] == UpperChar(s[k])
  {
    seq(|s|, k requires 0 <= k < |s| => UpperChar(s[k]))
  }

  /** Lower-casing forgets whether the text was upper-cased first. */
  lemma LowerOfUpper(s: string)
    ensures Lower(Upper(s)) == Lower(s)
  {
    assert forall k :: 0 <= k < |s| ==> LowerChar(UpperChar(s[k])) == LowerChar(s[k]);
  }

  lemma LowerNoUpper(s: string)
    requires NoUpper(s)
    ensures Lower(s) == s
  {
  }

  /** Lower-casing yields a character only where it or its upper-case form was. */
  lemma LowerAbsent(s: string, c: char)
    requires !IsUpper(c) && c !in s && UpperChar(c) !in s
    ensures c !in Lower(s)
  {
    forall k | 0 <= k < |s|
      ensures Lower(s)[k] != c
    {
      assert s[k] in s;
    }
  }

  lemma LowerConcat(a: string, b: string)
    ensures Lower(a + b) == Lower(a) + Lower(b)
  {
  }

  // ----------------------------------------------------- character removal

  /** `s.replace(c, "")` for a one-character `c` */
  function RemoveChar(s: string, c: char): (r: string)
    ensures c !in r
    ensures forall x :: x in r ==> x in s
    ensures |r| <= |s|
    decreases |s|
  {
    if s == [] then []
    else (if s[0] == c then [] else [s[0]]) + RemoveChar(s[1..], c)
  }

  lemma {:induction false} RemoveCharConcat(a: string, b: string, c: char)
    ensures RemoveChar(a + b, c) == RemoveChar(a, c) + RemoveChar(b, c)
    decreases |a|
  {
    if a != [] {
      assert (a + b)[1..] == a[1..] + b;
      RemoveCharConcat(a[1..], b, c);
    } else {
      assert a + b == b;
    }
  }

  lemma {:induction false} RemoveCharAbsent(s: string, c: char)
    requires c !in s
    ensures RemoveChar(s, c) == s
    decreases |s|
  {
    if s != [] {
      RemoveCharAbsent(s[1..], c);
    }
  }

  // ------------------------------------------------------------- strip

  function StripLeft(s: string): (r: string)
    ensures r == [] || !IsSpace(r[0])
    decreases |s|
  {
    if s != [] && IsSpace(s[0]) then StripLeft(s[1..]) else s
  }

  function StripRight(s: string): (r: string)
    ensures r == [] || !IsSpace(r[|r| - 1])
    decreases |s|
  {
    if s != [] && IsSpace(s[|s| - 1]) then StripRight(s[..|s| - 1]) else s
  }

  /** `s.strip()` */
  function Strip(s: string): string {
    StripRight(StripLeft(s))
  }

  lemma StripUnpadded(s: string)
    requires s == [] || (!IsSpace(s[0]) && !IsSpace(s[|s| - 1]))
    ensures Strip(s) == s
  {
  }

  lemma StripLeadingSpace(c: char, s: string)
    requires IsSpace(c)
    ensures Strip([c] + s) == Strip(s)
  {
    assert ([c] + s)[1..] == s;
  }

  /** Stripping stops at the first non-space character. */
  lemma {:induction false} StripLeftAround(a: string, m: string, b: string)
    requires |m| > 0 && !IsSpace(m[0])
    ensures StripLeft(a + m + b) == StripLeft(a) + m + b
    decreases |a|
  {
    if a == [] {
      assert a + m + b == m + b;
    } else {
      assert (a + m + b)[1..] == a[1..] + m + b;
      if IsSpace(a[0]) {
        StripLeftAround(a[1..], m, b);
      }
    }
  }

  lemma {:induction false} StripRightAround(a: string, m: string, b: string)
    requires |m| > 0 && !IsSpace(m[|m| - 1])
    ensures StripRight(a + m + b) == a + m + StripRight(b)
    decreases |b|
  {
    if b == [] {
      assert a + m + b == a + m;
    } else {
      var s := a + m + b;
      assert s[..|s| - 1] == a + m + b[..|b| - 1];
      if IsSpace(b[|b| - 1]) {
        StripRightAround(a, m, b[..|b| - 1]);
      }
    }
  }

  /** `strip()` only trims what lies outside a text that starts and ends
      with a non-space. */
  lemma StripAround(a: string, m: string, b: string)
    requires |m| > 0 && !IsSpace(m[0]) && !IsSpace(m[|m| - 1])
    ensures Strip(a + m + b) == StripLeft(a) + m + StripRight(b)
  {
    StripLeftAround(a, m, b);
    StripRightAround(StripLeft(a), m, b);
  }

  predicate AllSpace(s: string) { forall k :: 0 <= k < |s| ==> IsSpace(s[k]) }

  lemma {:induction false} StripLeftSpaces(a: string, s: string)
    requires AllSpace(a)
    ensures StripLeft(a + s) == StripLeft(s)
    decreases |a|
  {
    if a == [] {
      assert a + s == s;
    } else {
      assert (a + s)[1..] == a[1..] + s;
      StripLeftSpaces(a[1..], s);
    }
  }

  lemma {:induction false} StripRightSpaces(s: string, b: string)
    requires AllSpace(b)
    ensures StripRight(s + b) == StripRight(s)
    decreases |b|
  {
    if b == [] {
      assert s + b == s;
    } else {
      var t := s + b;
      assert t[..|t| - 1] == s + b[..|b| - 1];
      StripRightSpaces(s, b[..|b| - 1]);
    }
  }

  /** Stripping the left of `s + b` strips `s`, and reaches into `b` only when
      `s` is all whitespace. */
  lemma {:induction false} StripLeftAppend(s: string, b: string)
    ensures StripLeft(s + b) == if StripLeft(s) == [] then StripLeft(b) else StripLeft(s) + b
    decreases |s|
  {
    if s == [] {
      assert s + b == b;
    } else {
      assert (s + b)[1..] == s[1..] + b;
      if IsSpace(s[0]) {
        StripLeftAppend(s[1..], b);
      }
    }
  }

  /** `strip()` ignores whitespace added on either side. */
  lemma StripPadding(a: string, s: string, b: string)
    requires AllSpace(a) && AllSpace(b)
    ensures Strip(a + s + b) == Strip(s)
  {
    assert a + s + b == a + (s + b);
    StripLeftSpaces(a, s + b);
    StripLeftAppend(s, b);
    if StripLeft(s) == [] {
      StripLeftSpaces(b, []);
      assert b + [] == b;
    } else {
      StripRightSpaces(StripLeft(s), b);
    }
  }

  /** What `lstrip()` leaves is a suffix, and what `rstrip()` leaves a prefix. */
  lemma {:induction false} StripLeftIsSuffix(s: string)
    ensures |StripLeft(s)| <= |s| && StripLeft(s) == s[|s| - |StripLeft(s)|..]
    decreases |s|
  {
    if s != [] && IsSpace(s[0]) {
      StripLeftIsSuffix(s[1..]);
      assert s[1..][|s| - 1 - |StripLeft(s[1..])|..] == s[|s| - |StripLeft(s[1..])|..];
    }
  }

  lemma {:induction false} StripRightIsPrefix(s: string)
    ensures |StripRight(s)| <= |s| && StripRight(s) == s[..|StripRight(s)|]
    decreases |s|
  {
    if s != [] && IsSpace(s[|s| - 1]) {
      var t := s[..|s| - 1];
      StripRightIsPrefix(t);
      assert t[..|StripRight(t)|] == s[..|StripRight(t)|];
    }
  }

  /** Upper-casing keeps spaces where they are, so it commutes with `strip()`. */
  lemma {:induction false} StripLeftUpper(s: string)
    ensures StripLeft(Upper(s)) == Upper(StripLeft(s))
    decreases |s|
  {
    if s != [] {
      assert Upper(s)[1..] == Upper(s[1..]);
      assert IsSpace(UpperChar(s[0])) == IsSpace(s[0]);
      if IsSpace(s[0]) {
        StripLeftUpper(s[1..]);
      }
    }
  }

  lemma {:induction false} StripRightUpper(s: string)
    ensures StripRight(Upper(s)) == Upper(StripRight(s))
    decreases |s|
  {
    if s != [] {
      assert Upper(s)[..|s| - 1] == Upper(s[..|s| - 1]);
      assert IsSpace(UpperChar(s[|s| - 1])) == IsSpace(s[|s| - 1]);
      if IsSpace(s[|s| - 1]) {
        StripRightUpper(s[..|s| - 1]);
      }
    }
  }

  lemma StripUpper(s: string)
    ensures Strip(Upper(s)) == Upper(Strip(s))
  {
    StripLeftUpper(s);
    StripRightUpper(StripLeft(s));
  }

  // ------------------------------------------------------- split and join

  /** `s.split(sep)` for a one-character separator: always at least one piece. */
  function Split(s: string, sep: char): (parts: seq<string>)
    ensures |parts| >= 1
    ensures forall k :: 0 <= k < |parts| ==> sep !in parts[k]
    decreases |s|
  {
    if s == [] then [""]
    else
      var rest := Split(s[1..], sep);
      if s[0] == sep then [""] + rest else [[s[0]] + rest[0]] + rest[1..]
  }

  /** `sep.join(parts)` */
  function Join(parts: seq<string>, sep: string): string
    decreases |parts|
  {
    if |parts| == 0 then ""
    else if |parts| == 1 then parts[0]
    else parts[0] + sep + Join(parts[1..], sep)
  }

  lemma {:induction false} SplitAbsent(s: string, sep: char)
    requires sep !in s
    ensures Split(s, sep) == [s]
    decreases |s|
  {
    if s != [] {
      SplitAbsent(s[1..], sep);
      assert [s[0]] + s[1..] == s;
    }
  }

  /** Splitting at a separator occurrence splits the two sides independently. */
  lemma {:induction false} SplitAt(a: string, sep: char, b: string)
    ensures Split(a + [sep] + b, sep) == Split(a, sep) + Split(b, sep)
    decreases |a|
  {
    var s := a + [sep] + b;
    if a == [] {
      assert s[1..] == b;
    } else {
      assert s[1..] == a[1..] + [sep] + b;
      SplitAt(a[1..], sep, b);
    }
  }

  /** A character absent from the text is absent from every piece. */
  lemma {:induction false} SplitKeepsAbsent(s: string, sep: char, c: char)
    requires c !in s
    ensures forall k :: 0 <= k < |Split(s, sep)| ==> c !in Split(s, sep)[k]
    decreases |s|
  {
    if s != [] {
      SplitKeepsAbsent(s[1..], sep, c);
    }
  }

  /** A text with exactly one separator splits into the two sides. */
  lemma SplitTwo(a: string, sep: char, b: string)
    requires sep !in a && sep !in b
    ensures Split(a + [sep] + b, sep) == [a, b]
  {
    SplitAt(a, sep, b);
    SplitAbsent(a, sep);
    SplitAbsent(b, sep);
  }

  /** Joining the pieces of a split gives back the text. */
  lemma {:induction false} JoinSplit(s: string, sep: char)
    ensures Join(Split(s, sep), [sep]) == s
    decreases |s|
  {
    if s != [] {
      var rest := Split(s[1..], sep);
      JoinSplit(s[1..], sep);
      if s[0] == sep {
        assert Join([""] + rest, [sep]) == [sep] + Join(rest, [sep]) by {
          assert ([""] + rest)[1..] == rest;
        }
      } else {
        var parts := [[s[0]] + rest[0]] + rest[1..];
        if |rest| == 1 {
          assert parts == [[s[0]] + rest[0]];
        } else {
          assert parts[1..] == rest[1..];
          assert Join(rest, [sep]) == rest[0] + [sep] + Join(rest[1..], [sep]);
        }
      }
    }
  }

  /** Splitting a join gives back the pieces, when none holds the separator. */
  lemma {:induction false} SplitJoin(parts: seq<string>, sep: char)
    requires |parts| >= 1
    requires forall k :: 0 <= k < |parts| ==> sep !in parts[k]
    ensures Split(Join(parts, [sep]), sep) == parts
    decreases |parts|
  {
    if |parts| == 1 {
      SplitAbsent(parts[0], sep);
    } else {
      SplitJoin(parts[1..], sep);
      SplitAt(parts[0], sep, Join(parts[1..], [sep]));
      SplitAbsent(parts[0], sep);
      assert parts == [parts[0]] + parts[1..];
    }
  }

  // ---------------------------------------------------- substring search

  predicate OccursAt(s: string, sub: string, i: nat) {
    i + |sub| <= |s| && s[i..i + |sub|] == sub
  }

  /** The first index at or after `i` where `sub` occurs (`s.find(sub, i)`). */
  function FindFrom(s: string, sub: string, i: nat): (r: Option<nat>)
    requires i <= |s|
    ensures r.Some? ==> i <= r.value && OccursAt(s, sub, r.value)
    ensures r.Some? ==> forall j :: i <= j < r.value ==> !OccursAt(s, sub, j)
    ensures r.None? ==> forall j :: i <= j <= |s| ==> !OccursAt(s, sub, j)
    decreases |s| - i
  {
    if i + |sub| > |s| then None
    else if s[i..i + |sub|] == sub then Some(i)
    else FindFrom(s, sub, i + 1)
  }

  /** `sub in s` */
  predicate Contains(s: string, sub: string) {
    FindFrom(s, sub, 0).Some?
  }

  lemma ContainsAt(s: string, sub: string, i: nat)
    requires OccursAt(s, sub, i)
    ensures Contains(s, sub)
  {
    var r := FindFrom(s, sub, 0);
    assert r.None? ==> !OccursAt(s, sub, i);
  }

  lemma ContainsMiddle(a: string, sub: string, b: string)
    ensures Contains(a + sub + b, sub)
  {
    assert (a + sub + b)[|a|..|a| + |sub|] == sub;
    ContainsAt(a + sub + b, sub, |a|);
  }

  /** A piece of a middle part is a piece of the whole. */
  lemma ContainsWithin(p: string, t: string, q: string, sub: string)
    ensures Contains(t, sub) ==> Contains(p + t + q, sub)
  {
    if Contains(t, sub) {
      var i := FindFrom(t, sub, 0).value;
      assert (p + t + q)[|p| + i..|p| + i + |sub|] == t[i..i + |sub|];
      ContainsAt(p + t + q, sub, |p| + i);
    }
  }

  /** A text cannot contain a piece with a character the text lacks. */
  lemma NotContainsMissingChar(s: string, sub: string, c: char)
    requires c in sub && c !in s
    ensures !Contains(s, sub)
  {
    var k :| 0 <= k < |sub| && sub[k] == c;
  }

  lemma ContainsChar(s: string, c: char)
    ensures Contains(s, [c]) <==> c in s
  {
    if c in s {
      var i :| 0 <= i < |s| && s[i] == c;
      assert s[i..i + 1] == [c];
      ContainsAt(s, [c], i);
    }
    if Contains(s, [c]) {
      var i := FindFrom(s, [c], 0).value;
      assert s[i..i + 1] == [c];
      assert s[i] == c;
    }
  }

  // ----------------------------------------------------------- numbers

  function DigitValue(c: char): nat {
    if IsDigit(c) then c as int - '0' as int else 0
  }

  function DigitChar(d: nat): char
    requires d < 10
  {
    ('0' as int + d) as char
  }

  /** The value of a run of decimal digits, most significant first. */
  function DecimalValue(ds: string): nat
    decreases |ds|
  {
    if ds == [] then 0 else DecimalValue(ds[..|ds| - 1]) * 10 + DigitValue(ds[|ds| - 1])
  }

  /** `str(n)` for a non-negative integer */
  function NatText(n: nat): (t: string)
    ensures |t| >= 1 && AllDigits(t)
    decreases n
  {
    if n < 10 then [DigitChar(n)] else NatText(n / 10) + [DigitChar(n % 10)]
  }

  /** `str(i)`, for integers of any size (Python refuses more than 4300 digits;
      that limit is not modelled). */
  function IntText(i: int): (t: string)
    ensures |t| >= 1 && !IsSpace(t[0]) && !IsSpace(t[|t| - 1])
    ensures forall k :: 0 <= k < |t| ==> IsDigit(t[k]) || t[k] == '-'
  {
    if i < 0 then "-" + NatText(-i) else NatText(i)
  }

  lemma {:induction false} DecimalValueOfNatText(n: nat)
    ensures DecimalValue(NatText(n)) == n
    decreases n
  {
    var t := NatText(n);
    if n >= 10 {
      DecimalValueOfNatText(n / 10);
      assert t[..|t| - 1] == NatText(n / 10);
    }
  }

  /** A digit string, with single underscores allowed between digits, as `int()` accepts it. */
  predicate DigitSyntax(u: string) {
    && |u| > 0
    && IsDigit(u[0]) && IsDigit(u[|u| - 1])
    && (forall k :: 0 <= k < |u| ==> IsDigit(u[k]) || u[k] == '_')
    && (forall k :: 0 <= k < |u| - 1 ==> u[k] == '_' ==> u[k + 1] != '_')
  }

  function UnsignedValue(u: string): Option<nat> {
    if DigitSyntax(u) then Some(DecimalValue(RemoveChar(u, '_'))) else None
  }

  predicate IsSign(c: char) { c == '+' || c == '-' }

  /** `int(s)`: surrounding whitespace is ignored, one optional sign, then digits
      (single underscores may separate them); anything else is rejected
      (Python raises `ValueError`). Digit strings of any length are accepted:
      Python's limit of 4300 digits for integer-string conversion is not modelled. */
  function ParseInt(s: string): Option<int> {
    var t := Strip(s);
    var signed := |t| > 0 && IsSign(t[0]);
    var magnitude := UnsignedValue(if signed then t[1..] else t);
    if magnitude.None? then None
    else if signed && t[0] == '-' then Some(-(magnitude.value as int))
    else Some(magnitude.value)
  }

  lemma UnsignedValueOfDigits(ds: string)
    requires |ds| > 0 && AllDigits(ds)
    ensures UnsignedValue(ds) == Some(DecimalValue(ds))
  {
    assert DigitSyntax(ds);
    RemoveCharAbsent(ds, '_');
  }

  /** `int()` reads back a non-empty run of digits as its decimal value. */
  lemma ParseIntOfDigits(ds: string)
    requires |ds| > 0 && AllDigits(ds)
    ensures ParseInt(ds) == Some(DecimalValue(ds))
  {
    assert IsDigit(ds[0]) && IsDigit(ds[|ds| - 1]);
    StripUnpadded(ds);
    assert !IsSign(Strip(ds)[0]);
    UnsignedValueOfDigits(ds);
  }

  /** `int()` ignores a leading space. */
  lemma ParseIntOfPadded(c: char, s: string, t: string)
    requires IsSpace(c) && t == [c] + s
    ensures ParseInt(t) == ParseInt(s)
  {
    StripLeadingSpace(c, s);
  }

  lemma ParseIntOfMinus(t: string, v: nat)
    requires Strip(t) == t && |t| > 0 && t[0] == '-' && UnsignedValue(t[1..]) == Some(v)
    ensures ParseInt(t) == Some(-(v as int))
  {
  }

  /** `int()` reads back a minus sign followed by a non-empty run of digits. */
  lemma ParseIntOfNegativeDigits(ds: string, t: string, v: nat)
    requires |ds| > 0 && AllDigits(ds) && DecimalValue(ds) == v && t == "-" + ds
    ensures ParseInt(t) == Some(-(v as int))
  {
    assert t[0] == '-' && t[|t| - 1] == ds[|ds| - 1];
    StripUnpadded(t);
    assert t[1..] == ds;
    UnsignedValueOfDigits(ds);
    ParseIntOfMinus(t, v);
  }

  /** `int(str(i)) == i` */
  lemma ParseIntOfIntText(i: int)
    ensures ParseInt(IntText(i)) == Some(i)
  {
    if i < 0 {
      ParseIntOfNegativeText(-i);
    } else {
      ParseIntOfNatText(i);
    }
  }

  lemma ParseIntOfNatText(n: nat)
    ensures ParseInt(NatText(n)) == Some(n)
  {
    ParseIntOfDigits(NatText(n));
    DecimalValueOfNatText(n);
  }

  lemma ParseIntOfNegativeText(n: nat)
    requires n > 0
    ensures ParseInt("-" + NatText(n)) == Some(-(n as int))
  {
    var ds := NatText(n);
    DecimalValueOfNatText(n);
    ParseIntOfNegativeDigits(ds, "-" + ds, n);
  }

  /** `str(xs)` for a list of integers: `[1, 2, 3]` */
  function ListText(xs: seq<int>): string {
    "[" + Join(IntTexts(xs), ", ") + "]"
  }

  function IntTexts(xs: seq<int>): (ts: seq<string>)
    ensures |ts| == |xs|
    ensures forall k :: 0 <= k < |xs| ==> ts[k] == IntText(xs[k])
  {
    seq(|xs|, k requires 0 <= k < |xs| => IntText(xs[k]))
  }

  /** Characters that may occur in `str(xs)` for a list of integers. */
  predicate ListChar(c: char) {
    IsDigit(c) || c == '-' || c == '[' || c == ']' || c == ',' || c == ' '
  }

  lemma {:induction false} JoinChars(parts: seq<string>, sep: string, ok: char -> bool)
    requires forall k, j :: 0 <= k < |parts| && 0 <= j < |parts[k]| ==> ok(parts[k][j])
    requires forall j :: 0 <= j < |sep| ==> ok(sep[j])
    ensures forall j :: 0 <= j < |Join(parts, sep)| ==> ok(Join(parts, sep)[j])
    decreases |parts|
  {
    if |parts| > 1 {
      JoinChars(parts[1..], sep, ok);
    }
  }

  lemma ListTextChars(xs: seq<int>)
    ensures forall j :: 0 <= j < |ListText(xs)| ==> ListChar(ListText(xs)[j])
  {
    JoinChars(IntTexts(xs), ", ", ListChar);
  }
}
