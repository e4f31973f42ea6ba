/** The JavaScript string operations the dashboard's data preparation relies on:
    `String.prototype.trim`, the character-class deletions `s.replace(/[^0-9.]+/g, "")`
    and `s.replace(/[^0-9.-]+/g, "")`, and the order the default `Array.prototype.sort`
    puts strings in. */
module JsStrings {

  /** The WhiteSpace and LineTerminator code points of ECMA-262 (sections 12.2 and 12.3):
      tab, vertical tab, form feed, the Zs space separators, the byte order mark,
      line feed, carriage return, line and paragraph separators. */
  predicate IsJsWhitespace(c: char) {
    c == '\t' || c == '\n' || c == '\U{B}' || c == '\U{C}' || c == '\r' || c == ' '
    || c == '\U{A0}' || c == '\U{1680}' || ('\U{2000}' <= c <= '\U{200A}')
    || c == '\U{2028}' || c == '\U{2029}' || c == '\U{202F}' || c == '\U{205F}'
    || c == '\U{3000}' || c == '\U{FEFF}'
  }

  /** Every character of `s` is white space. */
  predicate AllSpace(s: string) {
    forall i :: 0 <= i < |s| ==> IsJsWhitespace(s[i])
  }

  function TrimStart(s: string): (r: string)
    ensures |r| <= |s| && r == s[|s| - |r|..]
    ensures AllSpace(s[..|s| - |r|])
    ensures r == [] || !IsJsWhitespace(r[0])
  {
    if s != [] && IsJsWhitespace(s[0]) then TrimStart(s[1..]) else s
  }

  function TrimEnd(s: string): (r: string)
    ensures |r| <= |s| && r == s[..|r|]
    ensures AllSpace(s[|r|..])
    ensures r == [] || !IsJsWhitespace(r[|r| - 1])
  {
    if s != [] && IsJsWhitespace(s[|s| - 1]) then TrimEnd(s[..|s| - 1]) else s
  }

  /** The number of white-space characters `s` starts with. */
  function LeadingSpace(s: string): (n: nat)
    ensures n <= |s|
  {
    |s| - |TrimStart(s)|
  }

  /** `s.trim()`: `s` without its leading and trailing white space (which TrimStart and
      TrimEnd characterise). */
  function Trim(s: string): (r: string)
    ensures LeadingSpace(s) + |r| <= |s| && r == s[LeadingSpace(s)..LeadingSpace(s) + |r|]
    ensures AllSpace(s[..LeadingSpace(s)]) && AllSpace(s[LeadingSpace(s) + |r|..])
    ensures r == [] || (!IsJsWhitespace(r[0]) && !IsJsWhitespace(r[|r| - 1]))
    ensures s == [] || (!IsJsWhitespace(s[0]) && !IsJsWhitespace(s[|s| - 1])) ==> r == s
  {
    var t := TrimStart(s);
    var r := TrimEnd(t);
    TrimParts(s, LeadingSpace(s), t, r);
    r
  }

  /** Cutting the white space `s[..n]` off the front and then `t[|r|..]` off the back. */
  lemma TrimParts(s: string, n: nat, t: string, r: string)
    requires n == |s| - |t| && t == s[n..] && AllSpace(s[..n]) && (t == [] || !IsJsWhitespace(t[0]))
    requires |r| <= |t| && r == t[..|r|] && AllSpace(t[|r|..]) && (r == [] || !IsJsWhitespace(r[|r| - 1]))
    ensures n + |r| <= |s| && r == s[n..n + |r|]
    ensures AllSpace(s[..n]) && AllSpace(s[n + |r|..])
    ensures r == [] || (!IsJsWhitespace(r[0]) && !IsJsWhitespace(r[|r| - 1]))
    ensures s == [] || (!IsJsWhitespace(s[0]) && !IsJsWhitespace(s[|s| - 1])) ==> r == s
  {
    assert r != [] ==> r[0] == t[0];
    assert s[n + |r|..] == t[|r|..];
    assert n > 0 ==> s[..n][0] == s[0];
    assert |r| < |t| ==> t[|r|..][|t| - 1 - |r|] == t[|t| - 1] == s[|s| - 1];
  }

  predicate IsDigit(c: char) {
    '0' <= c <= '9'
  }

  predicate IsDigitsAndDots(s: string) {
    forall i :: 0 <= i < |s| ==> IsDigit(s[i]) || s[i] == '.'
  }

  predicate IsNumeralChars(s: string) {
    forall i :: 0 <= i < |s| ==> IsDigit(s[i]) || s[i] == '.' || s[i] == '-'
  }

  /** `s.replace(/[^0-9.]+/g, "")`: only the digits and decimal points of `s`, in order. */
  function KeepDigitsAndDots(s: string): (r: string)
    ensures |r| <= |s|
  {
    if s == [] then []
    else (if IsDigit(s[0]) || s[0] == '.' then [s[0]] else []) + KeepDigitsAndDots(s[1..])
  }

  lemma {:induction false} KeepDigitsAndDotsAppend(a: string, b: string)
    ensures KeepDigitsAndDots(a + b) == KeepDigitsAndDots(a) + KeepDigitsAndDots(b)
  {
    if a != [] {
      assert (a + b)[1..] == a[1..] + b;
      KeepDigitsAndDotsAppend(a[1..], b);
    } else {
      assert a + b == b;
    }
  }

  /** A string of digits and decimal points is left as it is. */
  lemma {:induction false} KeepDigitsAndDotsFixed(s: string)
    requires IsDigitsAndDots(s)
    ensures KeepDigitsAndDots(s) == s
  {
    if s != [] {
      KeepDigitsAndDotsFixed(s[1..]);
      assert s == [s[0]] + s[1..];
    }
  }

  /** Only digits and decimal points survive the deletion. */
  lemma {:induction false} KeepDigitsAndDotsAlphabet(s: string)
    ensures IsDigitsAndDots(KeepDigitsAndDots(s))
  {
    if s != [] {
      KeepDigitsAndDotsAlphabet(s[1..]);
    }
  }

  /** Every digit and decimal point of `s` survives the deletion. */
  lemma {:induction false} KeepDigitsAndDotsKeeps(s: string, i: nat)
    requires i < |s| && (IsDigit(s[i]) || s[i] == '.')
    ensures s[i] in KeepDigitsAndDots(s)
  {
    if i > 0 {
      KeepDigitsAndDotsKeeps(s[1..], i - 1);
    }
  }

  /** A string without digits and decimal points is deleted entirely. */
  lemma {:induction false} KeepDigitsAndDotsNone(s: string)
    requires forall i :: 0 <= i < |s| ==> !IsDigit(s[i]) && s[i] != '.'
    ensures KeepDigitsAndDots(s) == []
  {
    if s != [] {
      KeepDigitsAndDotsNone(s[1..]);
    }
  }

  /** `s.replace(/[^0-9.-]+/g, "")`: only the digits, decimal points and minus signs of `s`. */
  function KeepNumeralChars(s: string): (r: string)
    ensures |r| <= |s|
    ensures forall c :: c in r ==> c in s
  {
    if s == [] then []
    else (if IsDigit(s[0]) || s[0] == '.' || s[0] == '-' then [s[0]] else []) + KeepNumeralChars(s[1..])
  }

  lemma {:induction false} KeepNumeralCharsAppend(a: string, b: string)
    ensures KeepNumeralChars(a + b) == KeepNumeralChars(a) + KeepNumeralChars(b)
  {
    if a != [] {
      assert (a + b)[1..] == a[1..] + b;
      KeepNumeralCharsAppend(a[1..], b);
    } else {
      assert a + b == b;
    }
  }

  /** A string of digits, decimal points and minus signs is left as it is. */
  lemma {:induction false} KeepNumeralCharsFixed(s: string)
    requires IsNumeralChars(s)
    ensures KeepNumeralChars(s) == s
  {
    if s != [] {
      KeepNumeralCharsFixed(s[1..]);
      assert s == [s[0]] + s[1..];
    }
  }

  /** Only digits, decimal points and minus signs survive the deletion. */
  lemma {:induction false} KeepNumeralCharsAlphabet(s: string)
    ensures IsNumeralChars(KeepNumeralChars(s))
  {
    if s != [] {
      KeepNumeralCharsAlphabet(s[1..]);
    }
  }

  /** Every digit, decimal point and minus sign of `s` survives the deletion. */
  lemma {:induction false} KeepNumeralCharsKeeps(s: string, i: nat)
    requires i < |s| && (IsDigit(s[i]) || s[i] == '.' || s[i] == '-')
    ensures s[i] in KeepNumeralChars(s)
  {
    if i > 0 {
      KeepNumeralCharsKeeps(s[1..], i - 1);
    }
  }

  /** A string without digits, decimal points and minus signs is deleted entirely. */
  lemma {:induction false} KeepNumeralCharsNone(s: string)
    requires forall i :: 0 <= i < |s| ==> !IsDigit(s[i]) && s[i] != '.' && s[i] != '-'
    ensures KeepNumeralChars(s) == []
  {
    if s != [] {
      KeepNumeralCharsNone(s[1..]);
    }
  }

  /** The order in which the default `Array.prototype.sort` puts strings: lexicographic by
      character code, a proper prefix first. */
  predicate CodeUnitLess(a: string, b: string) {
    b != [] && (a == [] || a[0] < b[0] || (a[0] == b[0] && CodeUnitLess(a[1..], b[1..])))
  }

  lemma {:induction false} CodeUnitLessIrreflexive(a: string)
    ensures !CodeUnitLess(a, a)
  {
    if a != [] {
      CodeUnitLessIrreflexive(a[1..]);
    }
  }

  lemma {:induction false} CodeUnitLessTransitive(a: string, b: string, c: string)
    requires CodeUnitLess(a, b) && CodeUnitLess(b, c)
    ensures CodeUnitLess(a, c)
  {
    if a != [] && a[0] == b[0] && b[0] == c[0] {
      CodeUnitLessTransitive(a[1..], b[1..], c[1..]);
    }
  }

  lemma {:induction false} CodeUnitLessTotal(a: string, b: string)
    ensures a == b || CodeUnitLess(a, b) || CodeUnitLess(b, a)
  {
    if a != [] && b != [] && a[0] == b[0] {
      CodeUnitLessTotal(a[1..], b[1..]);
      if a[1..] == b[1..] {
        assert a == [a[0]] + a[1..] && b == [b[0]] + b[1..];
      }
    }
  }
}
