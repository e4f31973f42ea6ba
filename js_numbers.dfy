/** The two ways the dashboard turns a stripped price string into a number, with numbers
    as exact reals and `NaN` as `None`:
    - `parseFloat` (ECMA-262 section 19.2.4), applied after `s.replace(/[^0-9.]+/g, "")`,
      reads the longest prefix that is a decimal numeral and gives `NaN` when there is none;
    - unary `+` (ECMA-262 section 7.1.4.1, ToNumber applied to a string), applied after
      `s.replace(/[^0-9.-]+/g, "")`, needs the WHOLE string to be a numeral with an optional
      sign, and reads the empty string as 0.
    After stripping no white space, exponent, `Infinity`, hexadecimal prefix or `+` sign
    can remain, so only the forms below are reachable. */
module JsNumbers {
  import opened Optional
  import opened JsStrings

  predicate AllDigits(s: string) {
    forall i :: 0 <= i < |s| ==> IsDigit(s[i])
  }

  function DigitValue(c: char): nat
    requires IsDigit(c)
  {
    c as int - '0' as int
  }

  /** The value of a string of decimal digits, most significant first. */
  function DigitsValue(ds: string): nat
    requires AllDigits(ds)
  {
    if ds == [] then 0 else 10 * DigitsValue(ds[..|ds| - 1]) + DigitValue(ds[|ds| - 1])
  }

  function Pow10(n: nat): (p: nat)
    ensures p >= 1
  {
    if n == 0 then 1 else 10 * Pow10(n - 1)
  }

  /** The longest run of digits at the start of `s`. */
  function LeadingDigits(s: string): (r: string)
    ensures AllDigits(r) && |r| <= |s| && r == s[..|r|]
    ensures |r| < |s| ==> !IsDigit(s[|r|])
  {
    if s != [] && IsDigit(s[0]) then [s[0]] + LeadingDigits(s[1..]) else []
  }

  /** An unsigned decimal numeral without exponent: `D+`, `D+.`, `D+.D+` or `.D+`. */
  datatype Numeral = Numeral(whole: string, point: bool, fraction: string)

  predicate WellFormed(n: Numeral) {
    AllDigits(n.whole) && AllDigits(n.fraction) && |n.whole| + |n.fraction| > 0
    && (!n.point ==> n.fraction == [])
  }

  function Text(n: Numeral): string {
    n.whole + (if n.point then "." else "") + n.fraction
  }

  function Value(n: Numeral): (v: real)
    requires WellFormed(n)
    ensures v >= 0.0
  {
    DigitsValue(n.whole) as real + DigitsValue(n.fraction) as real / Pow10(|n.fraction|) as real
  }

  /** The longest prefix of `s` that is a numeral, if `s` starts with one. */
  function ScanNumeral(s: string): (r: Option<Numeral>)
    ensures r.Some? ==> WellFormed(r.value) && |Text(r.value)| <= |s| && Text(r.value) == s[..|Text(r.value)|]
    ensures r.None? <==> s == [] || (!IsDigit(s[0]) && !(s[0] == '.' && |s| > 1 && IsDigit(s[1])))
  {
    var w := LeadingDigits(s);
    var rest := s[|w|..];
    if rest != [] && rest[0] == '.' then
      var f := LeadingDigits(rest[1..]);
      assert s[..|w| + 1 + |f|] == w + "." + f;
      if w == [] && f == [] then None else Some(Numeral(w, true, f))
    else if w == [] then None
    else Some(Numeral(w, false, []))
  }

  /** `parseFloat(s)` for a string of digits and decimal points. */
  function ParseFloat(s: string): (r: Option<real>)
    requires IsDigitsAndDots(s)
    ensures r.Some? ==> r.value >= 0.0
    ensures r.None? <==> s == [] || (!IsDigit(s[0]) && !(s[0] == '.' && |s| > 1 && IsDigit(s[1])))
  {
    match ScanNumeral(s)
    case None => None
    case Some(n) => Some(Value(n))
  }

  /** Unary `+` on an unsigned string: the whole string must be one numeral. */
  function UnsignedToNumber(t: string): Option<real> {
    match ScanNumeral(t)
    case None => None
    case Some(n) => if |Text(n)| == |t| then Some(Value(n)) else None
  }

  /** Unary `+s` for a string of digits, decimal points and minus signs. */
  function ToNumber(s: string): (r: Option<real>)
    requires IsNumeralChars(s)
    ensures s == [] ==> r == Some(0.0)
    ensures r.Some? && s != [] && s[0] != '-' ==> r.value >= 0.0
    ensures r.Some? && s != [] && s[0] == '-' ==> r.value <= 0.0
  {
    if s == [] then Some(0.0)
    else if s[0] == '-' then
      match UnsignedToNumber(s[1..])
      case None => None
      case Some(v) => Some(-v)
    else UnsignedToNumber(s)
  }

  /** The price rule of BarGraph.js and the four numeric fields of scatterPlot.js. */
  function StrippedParseFloat(raw: string): (r: Option<real>)
    ensures r.Some? ==> r.value >= 0.0
  {
    KeepDigitsAndDotsAlphabet(raw);
    ParseFloat(KeepDigitsAndDots(raw))
  }

  /** The price rule of the filter in control.js and of heatMap.js. */
  function StrippedToNumber(raw: string): (r: Option<real>)
    ensures r.Some? && r.value < 0.0 ==> '-' in raw
  {
    KeepNumeralCharsAlphabet(raw);
    ToNumber(KeepNumeralChars(raw))
  }

  // ----- properties -----

  lemma {:induction false} LeadingDigitsOfDigits(ds: string, rest: string)
    requires AllDigits(ds)
    requires rest == [] || !IsDigit(rest[0])
    ensures LeadingDigits(ds + rest) == ds
  {
    if ds != [] {
      assert (ds + rest)[1..] == ds[1..] + rest;
      LeadingDigitsOfDigits(ds[1..], rest);
      assert ds == [ds[0]] + ds[1..];
    } else {
      assert ds + rest == rest;
    }
  }

  /** Reading a numeral's text back gives the numeral: text and numeral are a round trip. */
  lemma ScanText(n: Numeral)
    requires WellFormed(n)
    ensures ScanNumeral(Text(n)) == Some(n)
  {
    var t := Text(n);
    if n.point {
      assert t == n.whole + ("." + n.fraction);
      LeadingDigitsOfDigits(n.whole, "." + n.fraction);
      assert t[|n.whole|..] == "." + n.fraction;
      assert ("." + n.fraction)[1..] == n.fraction + [];
      LeadingDigitsOfDigits(n.fraction, []);
    } else {
      assert t == n.whole + [];
      LeadingDigitsOfDigits(n.whole, []);
    }
  }

  /** The numeral `parseFloat` reads is the longest one: no longer prefix of `s` is a numeral. */
  lemma ScanNumeralLongest(s: string, n: Numeral)
    requires WellFormed(n) && |Text(n)| <= |s| && Text(n) == s[..|Text(n)|]
    ensures ScanNumeral(s).Some?
    ensures |Text(n)| <= |Text(ScanNumeral(s).value)|
  {
    var t := Text(n);
    assert t == n.whole + (if n.point then "." else "") + n.fraction;
    var w := LeadingDigits(s);
    assert forall i :: 0 <= i < |n.whole| ==> s[i] == t[i] == n.whole[i];
    assert |w| >= |n.whole|;
    if n.point {
      assert s[|n.whole|] == '.';
      assert |w| == |n.whole|;
      var f := LeadingDigits(s[|w| + 1..]);
      assert forall i :: 0 <= i < |n.fraction| ==> s[|w| + 1..][i] == t[|w| + 1 + i] == n.fraction[i];
      assert |f| >= |n.fraction|;
    }
  }

  lemma NumeralTextHasNoMinus(n: Numeral)
    ensures '-' !in Text(n) || !WellFormed(n)
  {
    if WellFormed(n) {
      assert forall i :: 0 <= i < |Text(n)| ==> IsDigit(Text(n)[i]) || Text(n)[i] == '.';
    }
  }

  /** Unary `+` gives `NaN` whenever a minus sign stands anywhere but first: `"5-"`, `"--5"`. */
  lemma ToNumberMisplacedMinus(s: string, i: nat)
    requires IsNumeralChars(s) && 0 < i < |s| && s[i] == '-'
    ensures ToNumber(s) == None
  {
    var t := if s[0] == '-' then s[1..] else s;
    assert '-' in t;
    match ScanNumeral(t)
    case None =>
    case Some(n) =>
      NumeralTextHasNoMinus(n);
      assert |Text(n)| == |t| ==> Text(n) == t;
  }

  /** Unary `+` gives `NaN` for a string with two decimal points, such as `"1.2.3"`. */
  lemma ToNumberTwoPoints(s: string, i: nat, j: nat)
    requires IsNumeralChars(s) && i < j < |s| && s[i] == '.' && s[j] == '.'
    ensures ToNumber(s) == None
  {
    if s[0] == '-' {
      assert i > 0;
      var t := s[1..];
      assert t[i - 1] == '.' && t[j - 1] == '.';
      UnsignedTwoPoints(t, i - 1, j - 1);
    } else {
      UnsignedTwoPoints(s, i, j);
    }
  }

  lemma UnsignedTwoPoints(t: string, i: nat, j: nat)
    requires i < j < |t| && t[i] == '.' && t[j] == '.'
    ensures UnsignedToNumber(t) == None
  {
    match ScanNumeral(t)
    case None =>
    case Some(n) =>
      NumeralPoints(n);
      assert forall k :: 0 <= k < |Text(n)| && t[k] == '.' ==> k == |n.whole| by {
        assert forall k :: 0 <= k < |Text(n)| ==> t[k] == Text(n)[k];
      }
  }

  /** A numeral's text has a decimal point at most once, right after the whole part. */
  lemma NumeralPoints(n: Numeral)
    requires WellFormed(n)
    ensures forall k :: 0 <= k < |Text(n)| && Text(n)[k] == '.' ==> n.point && k == |n.whole|
  {
    var x := Text(n);
    assert forall k :: 0 <= k < |n.whole| ==> x[k] == n.whole[k];
    assert forall k :: |x| - |n.fraction| <= k < |x| ==> x[k] == n.fraction[k - (|x| - |n.fraction|)];
  }

  /** Where unary `+` accepts a non-empty string of digits and points, `parseFloat` reads
      the same number from it. */
  lemma ToNumberAgreesWithParseFloat(s: string)
    requires IsDigitsAndDots(s) && s != [] && ToNumber(s).Some?
    ensures ParseFloat(s) == ToNumber(s)
  {
    assert s[0] != '-';
  }

  /** Both readings give a numeral's value back from its text, and unary `+` the negated
      value from the text with a leading minus sign. */
  lemma ReadNumeralText(n: Numeral)
    requires WellFormed(n)
    ensures IsDigitsAndDots(Text(n)) && ParseFloat(Text(n)) == Some(Value(n))
    ensures IsNumeralChars(Text(n)) && ToNumber(Text(n)) == Some(Value(n))
    ensures IsNumeralChars("-" + Text(n)) && ToNumber("-" + Text(n)) == Some(-Value(n))
  {
    var t := Text(n);
    assert forall i :: 0 <= i < |t| ==> IsDigit(t[i]) || t[i] == '.';
    ScanText(n);
    assert ("-" + t)[1..] == t;
    assert t[0] != '-';
  }

  /** Conversely, unary `+` reads a non-empty string as a number only when it is a numeral
      or a minus sign followed by one, and the number is that numeral's value or its negation. */
  lemma ToNumberNumeralForms(s: string)
    requires IsNumeralChars(s) && s != [] && ToNumber(s).Some?
    ensures exists n :: (WellFormed(n) &&
      ((s == Text(n) && ToNumber(s).value == Value(n)) ||
       (s == "-" + Text(n) && ToNumber(s).value == -Value(n))))
  {
    var t := if s[0] == '-' then s[1..] else s;
    var n := ScanNumeral(t).value;
    assert Text(n) == t;
    assert s[0] == '-' ==> s == "-" + t;
  }

  /**
   * A character outside both kept alphabets, such as a currency sign or a thousands
   * separator, changes neither reading wherever it stands.
   */
  lemma IgnoresSeparator(a: string, c: char, b: string)
    requires !IsDigit(c) && c != '.' && c != '-'
    ensures StrippedParseFloat(a + [c] + b) == StrippedParseFloat(a + b)
    ensures StrippedToNumber(a + [c] + b) == StrippedToNumber(a + b)
  {
    assert [c][1..] == [];
    assert KeepDigitsAndDots([c]) == [] && KeepNumeralChars([c]) == [];
    KeepDigitsAndDotsAppend(a + [c], b);
    KeepDigitsAndDotsAppend(a, [c]);
    KeepDigitsAndDotsAppend(a, b);
    KeepNumeralCharsAppend(a + [c], b);
    KeepNumeralCharsAppend(a, [c]);
    KeepNumeralCharsAppend(a, b);
    assert KeepDigitsAndDots(a + [c] + b) == KeepDigitsAndDots(a + b);
    assert KeepNumeralChars(a + [c] + b) == KeepNumeralChars(a + b);
  }

  /** Both readings of a bare numeral are its value. */
  lemma StrippedNumeral(n: Numeral)
    requires WellFormed(n)
    ensures StrippedParseFloat(Text(n)) == Some(Value(n))
    ensures StrippedToNumber(Text(n)) == Some(Value(n))
  {
    ReadNumeralText(n);
    KeepDigitsAndDotsFixed(Text(n));
    KeepNumeralCharsFixed(Text(n));
  }

  /**
   * Currency formatting is ignored by both rules: a numeral written with a leading `$` and
   * a `,` at any position, such as `$1,234.50`, reads as the numeral's value.
   */
  lemma CurrencyReading(n: Numeral, k: nat)
    requires WellFormed(n) && k <= |Text(n)|
    ensures StrippedParseFloat("$" + Text(n)[..k] + "," + Text(n)[k..]) == Some(Value(n))
    ensures StrippedToNumber("$" + Text(n)[..k] + "," + Text(n)[k..]) == Some(Value(n))
  {
    var t := Text(n);
    var head, tail := t[..k], t[k..];
    assert head + tail == t;
    assert "$" + head + "," + tail == [] + ['$'] + (head + [','] + tail);
    IgnoresSeparator([], '$', head + [','] + tail);
    assert [] + (head + [','] + tail) == head + [','] + tail;
    IgnoresSeparator(head, ',', tail);
    StrippedNumeral(n);
  }

  // The worked readings below state, for one raw price string each, what both rules read.

  /** A leading minus sign is dropped by the `parseFloat` rule and kept by the unary `+` rule. */
  lemma MinusReading(raw: string)
    requires raw == "-5"
    ensures StrippedParseFloat(raw) == Some(5.0)
    ensures StrippedToNumber(raw) == Some(-5.0)
  {
    var five := Numeral("5", false, "");
    assert Text(five) == "5" && raw == "-" + Text(five);
    assert Value(five) == 5.0 by {
      assert DigitsValue("5") == 5 && DigitsValue("") == 0;
    }
    ReadNumeralText(five);
    assert StrippedParseFloat(raw) == Some(5.0) by {
      KeepDigitsAndDotsAppend("-", "5");
      KeepDigitsAndDotsNone("-");
      KeepDigitsAndDotsFixed("5");
    }
    assert StrippedToNumber(raw) == Some(-5.0) by {
      KeepNumeralCharsFixed(raw);
    }
  }

  /** A second decimal point ends what `parseFloat` reads, and makes unary `+` give `NaN`. */
  lemma TwoPointsReading(raw: string)
    requires raw == "1.2.3"
    ensures StrippedParseFloat(raw) == Some(1.2)
    ensures StrippedToNumber(raw) == None
  {
    KeepDigitsAndDotsFixed(raw);
    assert LeadingDigits(raw) == "1";
    assert raw[1..] == ".2.3" && raw[2..] == "2.3";
    assert LeadingDigits("2.3") == "2";
    assert ScanNumeral(raw) == Some(Numeral("1", true, "2"));
    assert DigitsValue("1") == 1 && DigitsValue("2") == 2;
    assert Value(Numeral("1", true, "2")) == 1.2;
    KeepNumeralCharsFixed(raw);
    ToNumberTwoPoints(raw, 1, 3);
  }

  /** A string without digits, points or minus signs is `NaN` to `parseFloat` but 0 to unary `+`. */
  lemma NoNumeralReading(raw: string)
    requires forall i :: 0 <= i < |raw| ==> !IsDigit(raw[i]) && raw[i] != '.' && raw[i] != '-'
    ensures StrippedParseFloat(raw) == None
    ensures StrippedToNumber(raw) == Some(0.0)
  {
    KeepDigitsAndDotsNone(raw);
    KeepNumeralCharsNone(raw);
  }

  /** For instance `"n/a"`. */
  lemma NoDigitsReading(raw: string)
    requires raw == "n/a"
    ensures StrippedParseFloat(raw) == None
    ensures StrippedToNumber(raw) == Some(0.0)
  {
    NoNumeralReading(raw);
  }

  /** A minus sign after the digits makes unary `+` give `NaN`. */
  lemma TrailingMinusReading(raw: string)
    requires raw == "5-"
    ensures StrippedToNumber(raw) == None
  {
    KeepNumeralCharsFixed(raw);
    ToNumberMisplacedMinus(raw, 1);
  }
}
