/**
 * The JavaScript values a request body or a database row can hold, and the
 * language's own conversions the handlers rely on: truthiness, Number(v),
 * String(v), String.prototype.trim and replaceAll('\\n', '\n').
 */
module JsValues {
  import opened Wrappers
  import opened Numerals

  /**
   * A finite decimal number units * 10^-scale. JSON numbers and the numeric
   * strings the handlers accept are finite decimals; the rounding to a
   * binary double is not part of this model.
   */
  datatype Decimal = Decimal(units: int, scale: nat)

  function Pow10(k: nat): (p: nat)
    ensures p >= 1
  {
    if k == 0 then 1 else 10 * Pow10(k - 1)
  }

  function RealValue(d: Decimal): real {
    d.units as real / Pow10(d.scale) as real
  }

  /** A decimal at scale zero is its units. */
  lemma IntegerValue(u: int)
    ensures RealValue(Decimal(u, 0)) == u as real
  {
    assert Pow10(0) == 1;
  }

  /** A decimal is positive exactly when its units are. */
  lemma PositiveUnits(d: Decimal)
    ensures RealValue(d) > 0.0 <==> d.units > 0
  {
    var p := Pow10(d.scale) as real;
    assert RealValue(d) * p == d.units as real;
  }

  /** The scalar values JSON bodies and database rows carry. */
  datatype Value =
    | Undefined
    | Null
    | Bool(b: bool)
    | Num(n: Decimal)
    | NaN
    | Str(s: string)

  /** Field lookup on a plain object: a missing property reads as undefined. */
  function Field(obj: map<string, Value>, key: string): (v: Value)
    ensures key !in obj ==> v == Undefined
    ensures key in obj ==> v == obj[key]
  {
    if key in obj then obj[key] else Undefined
  }

  /** JavaScript truthiness: false, 0, -0, NaN, '', null and undefined are falsy. */
  predicate Truthy(v: Value) {
    match v
    case Undefined => false
    case Null => false
    case Bool(b) => b
    case Num(d) => d.units != 0
    case NaN => false
    case Str(s) => s != ""
  }

  /** The characters String.prototype.trim and Number() strip: WhiteSpace and LineTerminator. */
  predicate IsWhitespace(c: char) {
    || c == '\t' || c == '\n' || c == '\U{000B}' || c == '\U{000C}' || c == '\r' || c == ' '
    || c == '\U{00A0}' || c == '\U{1680}' || ('\U{2000}' <= c <= '\U{200A}')
    || c == '\U{2028}' || c == '\U{2029}' || c == '\U{202F}' || c == '\U{205F}'
    || c == '\U{3000}' || c == '\U{FEFF}'
  }

  /** Every character of s is whitespace. */
  predicate Blank(s: string) {
    forall i :: 0 <= i < |s| ==> IsWhitespace(s[i])
  }

  function TrimStart(s: string): (r: string)
    ensures |r| <= |s| && r == s[|s| - |r|..]
    ensures Blank(s[..|s| - |r|])
    ensures r == [] || !IsWhitespace(r[0])
  {
    if s != [] && IsWhitespace(s[0]) then
      var r := TrimStart(s[1..]);
      assert s[..|s| - |r|] == [s[0]] + s[1..][..|s| - 1 - |r|];
      r
    else
      s
  }

  function TrimEnd(s: string): (r: string)
    ensures |r| <= |s| && r == s[..|r|]
    ensures Blank(s[|r|..])
    ensures r == [] || !IsWhitespace(r[|r| - 1])
  {
    if s != [] && IsWhitespace(s[|s| - 1]) then
      var r := TrimEnd(s[..|s| - 1]);
      assert s[|r|..] == s[..|s| - 1][|r|..] + [s[|s| - 1]];
      r
    else
      s
  }

  /** r is the slice s[a..a + |r|] and everything of s around it is whitespace. */
  predicate InnerSlice(s: string, r: string, a: nat) {
    && a + |r| <= |s| && r == s[a..a + |r|]
    && Blank(s[..a]) && Blank(s[a + |r|..])
  }

  /**
   * String.prototype.trim: the input with its leading and trailing
   * whitespace removed. The result is a slice of the input with only
   * whitespace around it, and neither starts nor ends with whitespace; a
   * string that already does not is left as it is.
   */
  function Trim(s: string): (r: string)
    ensures |r| <= |s|
    ensures exists a: nat :: InnerSlice(s, r, a)
    ensures r == [] || (!IsWhitespace(r[0]) && !IsWhitespace(r[|r| - 1]))
    ensures (s == [] || (!IsWhitespace(s[0]) && !IsWhitespace(s[|s| - 1]))) ==> r == s
  {
    TrimIsInnerSlice(s);
    TrimEndsVisible(s);
    TrimKeepsVisible(s);
    TrimStart(TrimEnd(s))
  }

  /** Trimming both ends leaves a text that starts and ends visibly, or nothing. */
  lemma TrimEndsVisible(s: string)
    ensures var r := TrimStart(TrimEnd(s));
            r == [] || (!IsWhitespace(r[0]) && !IsWhitespace(r[|r| - 1]))
  {
    var e := TrimEnd(s);
    var r := TrimStart(e);
    assert r != [] ==> r[|r| - 1] == e[|e| - 1];
  }

  /** A text that starts and ends visibly loses nothing to either half of the trim. */
  lemma TrimKeepsVisible(s: string)
    ensures s != [] && !IsWhitespace(s[0]) && !IsWhitespace(s[|s| - 1]) ==> TrimStart(TrimEnd(s)) == s
  {
    if s != [] && !IsWhitespace(s[0]) && !IsWhitespace(s[|s| - 1]) {
      assert TrimEnd(s) == s;
    }
  }

  /** Trimming the end and then the start leaves a slice with only whitespace around it. */
  lemma TrimIsInnerSlice(s: string)
    ensures var e := TrimEnd(s);
            var r := TrimStart(e);
            InnerSlice(s, r, |e| - |r|)
  {
    var e := TrimEnd(s);
    var r := TrimStart(e);
    SuffixOfPrefix(s, e, r);
  }

  /**
   * A suffix r of a prefix e of s, with whitespace before r in e and after
   * e in s, is an inner slice of s.
   */
  lemma SuffixOfPrefix(s: string, e: string, r: string)
    requires |e| <= |s| && e == s[..|e|]
    requires |r| <= |e| && r == e[|e| - |r|..]
    requires Blank(e[..|e| - |r|]) && Blank(s[|e|..])
    ensures InnerSlice(s, r, |e| - |r|)
  {
    var a := |e| - |r|;
    forall j | 0 <= j < |r|
      ensures r[j] == s[a + j]
    {
      assert r[j] == e[a + j] && e[a + j] == s[a + j];
    }
    assert r == s[a..a + |r|];
    assert s[..a] == e[..a];
  }

  lemma {:induction false} TrimEndPadded(x: string, trail: string)
    requires x != [] && !IsWhitespace(x[|x| - 1])
    requires Blank(trail)
    ensures TrimEnd(x + trail) == x
    decreases |trail|
  {
    if trail == [] {
      assert x + trail == x;
    } else {
      var s := x + trail;
      assert s[|s| - 1] == trail[|trail| - 1];
      assert s[..|s| - 1] == x + trail[..|trail| - 1];
      TrimEndPadded(x, trail[..|trail| - 1]);
    }
  }

  lemma {:induction false} TrimStartPadded(lead: string, x: string)
    requires x != [] && !IsWhitespace(x[0])
    requires Blank(lead)
    ensures TrimStart(lead + x) == x
    decreases |lead|
  {
    if lead == [] {
      assert lead + x == x;
    } else {
      var s := lead + x;
      assert s[0] == lead[0];
      assert s[1..] == lead[1..] + x;
      TrimStartPadded(lead[1..], x);
    }
  }

  /** Whitespace around a text whose ends are not whitespace is exactly what trim removes. */
  lemma TrimPadded(lead: string, core: string, trail: string)
    requires Blank(lead) && Blank(trail)
    requires core != [] && !IsWhitespace(core[0]) && !IsWhitespace(core[|core| - 1])
    ensures Trim(lead + core + trail) == core
  {
    var x := lead + core;
    assert x[|x| - 1] == core[|core| - 1];
    TrimEndPadded(x, trail);
    TrimStartPadded(lead, core);
  }

  /** True when s holds a backslash immediately followed by the letter n. */
  predicate HasEscapedNewline(s: string) {
    exists i :: 0 <= i < |s| - 1 && s[i] == '\\' && s[i + 1] == 'n'
  }

  /**
   * s.replaceAll('\\n', '\n'): every two-character sequence backslash, n,
   * scanned left to right, becomes one newline. None is left afterwards.
   */
  function ExpandNewlines(s: string): (r: string)
    ensures |r| <= |s|
    ensures s == [] <==> r == []
    ensures s != [] ==> r[0] == s[0] || r[0] == '\n'
    ensures !HasEscapedNewline(r)
    decreases |s|
  {
    if |s| >= 2 && s[0] == '\\' && s[1] == 'n' then
      var rest := ExpandNewlines(s[2..]);
      assert forall i :: 1 <= i < |rest| ==> ("\n" + rest)[i] == rest[i - 1];
      "\n" + rest
    else if s == [] then []
    else
      var rest := ExpandNewlines(s[1..]);
      assert forall i :: 1 <= i < |rest| ==> ([s[0]] + rest)[i] == rest[i - 1];
      [s[0]] + rest
  }

  /** Dropping the first character of a text creates no escaped newline. */
  lemma NoEscapeInTail(s: string)
    requires s != [] && !HasEscapedNewline(s)
    ensures !HasEscapedNewline(s[1..])
  {
    forall i | 0 <= i < |s[1..]| - 1
      ensures !(s[1..][i] == '\\' && s[1..][i + 1] == 'n')
    {
      assert s[1..][i] == s[i + 1] && s[1..][i + 1] == s[i + 2];
    }
  }

  /** Text without an escaped newline is left unchanged, so the replacement is idempotent. */
  lemma {:induction false} ExpandNewlinesIdempotent(s: string)
    requires !HasEscapedNewline(s)
    ensures ExpandNewlines(s) == s
    ensures ExpandNewlines(ExpandNewlines(s)) == ExpandNewlines(s)
    decreases |s|
  {
    if s != [] {
      assert !(|s| >= 2 && s[0] == '\\' && s[1] == 'n');
      NoEscapeInTail(s);
      ExpandNewlinesIdempotent(s[1..]);
    }
  }

  /**
   * The replacement at the first backslash-n: the text before it is kept,
   * the pair becomes a newline, and the rest is replaced in turn. With
   * ExpandNewlinesIdempotent this determines the result on every text.
   */
  lemma {:induction false} ExpandNewlinesAt(a: string, b: string)
    requires !HasEscapedNewline(a)
    ensures ExpandNewlines(a + "\\n" + b) == a + "\n" + ExpandNewlines(b)
    decreases |a|
  {
    if a == [] {
      assert a + "\\n" + b == "\\n" + b;
      ExpandNewlinesPair(b);
    } else {
      var s := a + "\\n" + b;
      assert s == [a[0]] + (a[1..] + "\\n" + b);
      assert !(|a| >= 2 && a[0] == '\\' && a[1] == 'n');
      ExpandNewlinesKeeps(a[0], a[1..] + "\\n" + b);
      NoEscapeInTail(a);
      ExpandNewlinesAt(a[1..], b);
      assert [a[0]] + (a[1..] + "\n" + ExpandNewlines(b)) == a + "\n" + ExpandNewlines(b);
    }
  }

  /** A backslash-n pair at the front becomes a newline. */
  lemma ExpandNewlinesPair(b: string)
    ensures ExpandNewlines("\\n" + b) == "\n" + ExpandNewlines(b)
  {
    assert ("\\n" + b)[2..] == b;
  }

  /** A first character that does not open a backslash-n pair is kept. */
  lemma ExpandNewlinesKeeps(c: char, rest: string)
    requires !(c == '\\' && rest != [] && rest[0] == 'n')
    ensures ExpandNewlines([c] + rest) == [c] + ExpandNewlines(rest)
  {
    assert ([c] + rest)[1..] == rest;
  }

  /** The position of the first c in s, or |s| when there is none. */
  function IndexOf(s: string, c: char): (i: nat)
    ensures i <= |s|
    ensures i < |s| ==> s[i] == c
    ensures forall j :: 0 <= j < i ==> s[j] != c
  {
    if s == [] then 0 else if s[0] == c then 0 else 1 + IndexOf(s[1..], c)
  }

  /** An unsigned decimal literal: digits, optionally a point and more digits, at least one digit. */
  function ParseUnsigned(t: string): (r: Option<Decimal>)
    ensures r.Some? ==> r.value.units >= 0
  {
    var dot := IndexOf(t, '.');
    var whole := t[..dot];
    var frac := if dot < |t| then t[dot + 1..] else "";
    if AllDigits(whole) && AllDigits(frac) && |whole| + |frac| > 0 then
      Some(Decimal(DigitsValue(whole + frac), |frac|))
    else None
  }

  /** The numeric literal grammar of Number(): an optional sign before an unsigned literal; "" is 0. */
  function ParseNumeric(t: string): Option<Decimal> {
    if t == "" then Some(Decimal(0, 0))
    else if t[0] == '-' then
      match ParseUnsigned(t[1..])
      case Some(d) => Some(Decimal(-d.units, d.scale))
      case None => None
    else if t[0] == '+' then ParseUnsigned(t[1..])
    else ParseUnsigned(t)
  }

  /** Number(v): always a number, possibly NaN. */
  function ToNumber(v: Value): (r: Value)
    ensures r.Num? || r.NaN?
    ensures v.Num? ==> r == v
    ensures v.Null? || v == Bool(false) || v == Str("") ==> r == Num(Decimal(0, 0))
    ensures v.Undefined? || v.NaN? ==> r == NaN
  {
    match v
    case Undefined => NaN
    case Null => Num(Decimal(0, 0))
    case Bool(b) => Num(Decimal(if b then 1 else 0, 0))
    case Num(d) => v
    case NaN => NaN
    case Str(s) =>
      match ParseNumeric(Trim(s))
      case Some(d) => Num(d)
      case None => NaN
  }

  lemma TrimKeepsDigits(s: string)
    requires |s| >= 1 && AllDigits(s)
    ensures Trim(s) == s
  {
    assert !IsWhitespace(s[0]) && !IsWhitespace(s[|s| - 1]);
  }

  lemma ParseDigits(s: string)
    requires |s| >= 1 && AllDigits(s)
    ensures ParseNumeric(s) == Some(Decimal(DigitsValue(s), 0))
  {
    assert IndexOf(s, '.') == |s|;
    assert s[..|s|] + "" == s;
  }

  /** A non-empty run of digits is read by Number() as the integer it denotes. */
  lemma NumberOfDigits(s: string)
    requires |s| >= 1 && AllDigits(s)
    ensures ToNumber(Str(s)) == Num(Decimal(DigitsValue(s), 0))
  {
    TrimKeepsDigits(s);
    ParseDigits(s);
  }

  /** A numeral, with or without leading zeros, converts back to its value. */
  lemma NumberOfNumeral(n: nat, width: nat)
    ensures ToNumber(Str(PadStart(NatText(n), width, '0'))) == Num(Decimal(n, 0))
  {
    var t := NatText(n);
    var k := if |t| >= width then 0 else width - |t|;
    var s := PadStart(t, width, '0');
    assert s == Repeat('0', k) + t;
    LeadingZeros(k, t);
    NumberOfDigits(s);
  }

  /** Digits, a point and digits: the units are all the digits, the scale the count after the point. */
  lemma ParsePointed(whole: string, frac: string)
    requires AllDigits(whole) && AllDigits(frac) && |whole| + |frac| >= 1
    ensures ParseUnsigned(whole + "." + frac) == Some(Decimal(DigitsValue(whole + frac), |frac|))
  {
    var t := whole + "." + frac;
    assert t[|whole|] == '.';
    assert forall j :: 0 <= j < |whole| ==> t[j] == whole[j];
    assert IndexOf(t, '.') == |whole|;
    assert t[..|whole|] == whole && t[|whole| + 1..] == frac;
  }

  /** The value a sign gives to unsigned units. */
  function Signed(sign: string, units: int): int {
    if sign == "-" then -units else units
  }

  /**
   * An optional sign before an unsigned literal that starts and ends with
   * visible characters: the literal stays visible at both ends, and its
   * parse is the unsigned parse with the sign applied.
   */
  lemma ParseSigned(sign: string, unsigned: string, d: Decimal)
    requires sign == "" || sign == "+" || sign == "-"
    requires unsigned != [] && unsigned[0] != '-' && unsigned[0] != '+'
    requires !IsWhitespace(unsigned[0]) && !IsWhitespace(unsigned[|unsigned| - 1])
    requires ParseUnsigned(unsigned) == Some(d)
    ensures var t := sign + unsigned;
            && !IsWhitespace(t[0]) && !IsWhitespace(t[|t| - 1])
            && ParseNumeric(t) == Some(Decimal(Signed(sign, d.units), d.scale))
  {
    var t := sign + unsigned;
    assert t[|t| - 1] == unsigned[|unsigned| - 1];
    if sign == "" {
      assert t == unsigned;
    } else {
      assert t[0] == sign[0] && t[1..] == unsigned;
    }
  }

  /** Number() of a numeric text between whitespace is the parse of that text. */
  lemma NumberOfPadded(lead: string, core: string, trail: string, d: Decimal)
    requires Blank(lead) && Blank(trail)
    requires core != [] && !IsWhitespace(core[0]) && !IsWhitespace(core[|core| - 1])
    requires ParseNumeric(core) == Some(d)
    ensures ToNumber(Str(lead + core + trail)) == Num(d)
  {
    TrimPadded(lead, core, trail);
  }

  /** Digits, a point and digits start and end with visible characters other than a sign. */
  lemma PointedEnds(whole: string, frac: string)
    requires AllDigits(whole) && AllDigits(frac)
    ensures var t := whole + "." + frac;
            && t[0] != '-' && t[0] != '+' && !IsWhitespace(t[0]) && !IsWhitespace(t[|t| - 1])
  {
    var t := whole + "." + frac;
    if whole != [] { assert t[0] == whole[0]; } else { assert t[0] == '.'; }
    if frac != [] { assert t[|t| - 1] == frac[|frac| - 1]; } else { assert t[|t| - 1] == '.'; }
  }

  /** A signed run of digits starts and ends visibly and parses as the signed integer. */
  lemma ParseSignedDigits(sign: string, digits: string)
    requires sign == "" || sign == "+" || sign == "-"
    requires AllDigits(digits) && |digits| >= 1
    ensures var t := sign + digits;
            && t != [] && !IsWhitespace(t[0]) && !IsWhitespace(t[|t| - 1])
            && ParseNumeric(t) == Some(Decimal(Signed(sign, DigitsValue(digits)), 0))
  {
    assert IsDigit(digits[0]) && IsDigit(digits[|digits| - 1]);
    ParseDigits(digits);
    ParseSigned(sign, digits, Decimal(DigitsValue(digits), 0));
  }

  /**
   * A signed decimal literal starts and ends visibly and parses as the
   * signed digits over ten to the number of fraction digits.
   */
  lemma ParseSignedPointed(sign: string, whole: string, frac: string)
    requires sign == "" || sign == "+" || sign == "-"
    requires AllDigits(whole) && AllDigits(frac) && |whole| + |frac| >= 1
    ensures var t := sign + (whole + "." + frac);
            && t != [] && !IsWhitespace(t[0]) && !IsWhitespace(t[|t| - 1])
            && ParseNumeric(t) == Some(Decimal(Signed(sign, DigitsValue(whole + frac)), |frac|))
  {
    PointedEnds(whole, frac);
    ParsePointed(whole, frac);
    ParseSigned(sign, whole + "." + frac, Decimal(DigitsValue(whole + frac), |frac|));
  }

  /**
   * Number() of a decimal literal with an optional sign and surrounding
   * whitespace: the signed digits over ten to the number of fraction digits.
   */
  lemma NumberOfDecimalLiteral(lead: string, sign: string, whole: string, frac: string, trail: string)
    requires Blank(lead) && Blank(trail)
    requires sign == "" || sign == "+" || sign == "-"
    requires AllDigits(whole) && AllDigits(frac) && |whole| + |frac| >= 1
    ensures ToNumber(Str(lead + (sign + (whole + "." + frac)) + trail))
            == Num(Decimal(Signed(sign, DigitsValue(whole + frac)), |frac|))
  {
    ParseSignedPointed(sign, whole, frac);
    NumberOfPadded(lead, sign + (whole + "." + frac), trail, Decimal(Signed(sign, DigitsValue(whole + frac)), |frac|));
  }

  /** Number() of an integer literal with an optional sign and surrounding whitespace. */
  lemma NumberOfIntegerLiteral(lead: string, sign: string, digits: string, trail: string)
    requires Blank(lead) && Blank(trail)
    requires sign == "" || sign == "+" || sign == "-"
    requires AllDigits(digits) && |digits| >= 1
    ensures ToNumber(Str(lead + (sign + digits) + trail)) == Num(Decimal(Signed(sign, DigitsValue(digits)), 0))
  {
    ParseSignedDigits(sign, digits);
    NumberOfPadded(lead, sign + digits, trail, Decimal(Signed(sign, DigitsValue(digits)), 0));
  }

  /** Strips trailing zero digits of a fraction: the same value with the smallest scale. */
  function StripZeros(d: Decimal): (r: Decimal)
    ensures r.scale <= d.scale
    ensures RealValue(r) == RealValue(d)
    ensures d.units >= 0 ==> r.units >= 0
    ensures r.scale == 0 || r.units % 10 != 0
    decreases d.scale
  {
    if d.scale > 0 && d.units % 10 == 0 then
      var q := Decimal(d.units / 10, d.scale - 1);
      ScaleDown(d.units / 10, d.scale - 1);
      StripZeros(q)
    else d
  }

  /** Ten times the units at one more place has the same value. */
  lemma ScaleDown(u: int, k: nat)
    ensures RealValue(Decimal(u, k)) == RealValue(Decimal(10 * u, k + 1))
  {
    var p := Pow10(k) as real;
    assert Pow10(k + 1) as real == 10.0 * p;
    assert (10 * u) as real == 10.0 * u as real;
    assert (10.0 * u as real) / (10.0 * p) == u as real / p;
  }

  /** The numeral of a padded with zeros to k + 1 digits: a digit run of value a. */
  function PaddedNumeral(a: nat, k: nat): (t: string)
    ensures AllDigits(t) && DigitsValue(t) == a && |t| >= k + 1
  {
    PaddedDigits(a, k);
    PadStart(NatText(a), k + 1, '0')
  }

  /** The digits of a / 10^k: the numeral of a, padded to k + 1 digits, with a point before its last k. */
  function UnsignedText(a: nat, k: nat): string {
    var t := PaddedNumeral(a, k);
    if k == 0 then t else t[..|t| - k] + "." + t[|t| - k..]
  }

  /** "-" for a negative decimal, nothing otherwise. */
  function SignPrefix(d: Decimal): string {
    if d.units < 0 then "-" else ""
  }

  /** The absolute value of d with trailing zeros stripped. */
  function Magnitude(d: Decimal): (m: Decimal)
    ensures m.units >= 0
    ensures RealValue(m) == RealValue(Decimal(if d.units < 0 then -d.units else d.units, d.scale))
  {
    StripZeros(Decimal(if d.units < 0 then -d.units else d.units, d.scale))
  }

  /** String(x) for a finite decimal in plain (non-exponent) notation, without trailing zeros. */
  function DecimalText(d: Decimal): (t: string)
    ensures t != [] && (t[0] == '-' <==> d.units < 0)
  {
    UnsignedTextStartsWithDigit(Magnitude(d).units, Magnitude(d).scale);
    SignPrefix(d) + UnsignedText(Magnitude(d).units, Magnitude(d).scale)
  }

  /** The digits before the point of String(x): at least one, and no leading zero unless it is the only digit. */
  predicate WholePart(w: string) {
    |w| >= 1 && AllDigits(w) && (w[0] == '0' ==> |w| == 1)
  }

  /** The digits after the point of String(x): at least one, the last of them not zero. */
  predicate FractionPart(f: string) {
    |f| >= 1 && AllDigits(f) && f[|f| - 1] != '0'
  }

  /**
   * The text of String(x): a minus sign exactly when x is negative, then the
   * shortest numeral of |x| (no leading zero but a lone one before the point,
   * no trailing zero after it, and no point for an integer).
   */
  lemma DecimalTextForm(d: Decimal) returns (whole: string, frac: string)
    ensures WholePart(whole) && (frac == [] || FractionPart(frac))
    ensures DecimalText(d) == SignPrefix(d) + (if frac == [] then whole else whole + "." + frac)
    ensures SignPrefix(d) == (if RealValue(d) < 0.0 then "-" else "")
    ensures RealValue(Decimal(DigitsValue(whole + frac), |frac|))
            == (if RealValue(d) < 0.0 then -RealValue(d) else RealValue(d))
  {
    var m := Magnitude(d);
    whole, frac := UnsignedTextSlices(m.units, m.scale);
    CanonicalParts(m.units, m.scale, whole, frac);
    SignAndMagnitude(d);
  }

  /** The sign String(x) writes is that of x's value, and the magnitude it writes has x's absolute value. */
  lemma SignAndMagnitude(d: Decimal)
    ensures SignPrefix(d) == (if RealValue(d) < 0.0 then "-" else "")
    ensures RealValue(Magnitude(d)) == (if RealValue(d) < 0.0 then -RealValue(d) else RealValue(d))
  {
    NegativeUnits(d);
    if d.units < 0 {
      NegatedValue(d.units, d.scale);
    }
  }

  /**
   * The padded numeral of a split before its last k digits: a whole part
   * without leading zero and, when a has no trailing zero, a fraction part
   * ending in a non-zero digit.
   */
  lemma CanonicalParts(a: nat, k: nat, whole: string, frac: string)
    requires k == 0 || a % 10 != 0
    requires var t := PaddedNumeral(a, k); whole == t[..|t| - k] && frac == t[|t| - k..]
    ensures WholePart(whole) && (k > 0 ==> FractionPart(frac))
  {
    PaddedWhole(a, k, whole);
    if k > 0 {
      PaddedFraction(a, k, frac);
    }
  }

  /** Two decimals of equal value are one JavaScript number, and String() writes them alike. */
  lemma DecimalTextOfValue(d1: Decimal, d2: Decimal)
    requires RealValue(d1) == RealValue(d2)
    ensures DecimalText(d1) == DecimalText(d2)
  {
    NegativeUnits(d1);
    NegativeUnits(d2);
    if d1.units < 0 {
      NegatedValue(d1.units, d1.scale);
      NegatedValue(d2.units, d2.scale);
    }
    MinimalDecimalsEqual(Magnitude(d1), Magnitude(d2));
  }

  /** A decimal is negative exactly when its units are. */
  lemma NegativeUnits(d: Decimal)
    ensures RealValue(d) < 0.0 <==> d.units < 0
  {
    var p := Pow10(d.scale) as real;
    assert RealValue(d) * p == d.units as real;
  }

  /** Decimals without a trailing fraction zero are equal when their values are. */
  lemma MinimalDecimalsEqual(d1: Decimal, d2: Decimal)
    requires d1.scale == 0 || d1.units % 10 != 0
    requires d2.scale == 0 || d2.units % 10 != 0
    requires RealValue(d1) == RealValue(d2)
    ensures d1 == d2
  {
    if d1.scale <= d2.scale {
      MinimalAtScale(d1, d2);
    } else {
      MinimalAtScale(d2, d1);
    }
  }

  /** A decimal of the same value at no smaller scale, without a trailing fraction zero, is the same decimal. */
  lemma MinimalAtScale(d1: Decimal, d2: Decimal)
    requires d1.scale <= d2.scale
    requires d2.scale == 0 || d2.units % 10 != 0
    requires RealValue(d1) == RealValue(d2)
    ensures d1 == d2
  {
    var j := d2.scale - d1.scale;
    Pow10Add(d1.scale, j);
    CrossMultiply(d1.units, d2.units, Pow10(d1.scale), Pow10(j));
    if j > 0 {
      TenDivides(d1.units, Pow10(j - 1));
      assert false;
    }
  }

  /** u1 / p == u2 / (p * q) means u2 == u1 * q. */
  lemma CrossMultiply(u1: int, u2: int, p: nat, q: nat)
    requires p >= 1 && q >= 1
    requires u1 as real / p as real == u2 as real / (p * q) as real
    ensures u2 == u1 * q
  {
    var v := u1 as real / p as real;
    assert (p * q) as real == p as real * q as real;
    assert u2 as real == v * (p as real * q as real);
    assert u1 as real == v * p as real;
    assert (u1 * q) as real == u1 as real * q as real;
  }

  /** A multiple of 10 * r ends in a zero digit. */
  lemma TenDivides(u: int, r: nat)
    ensures (u * (10 * r)) % 10 == 0
  {
    assert u * (10 * r) == 10 * (u * r);
  }

  /** Powers of ten multiply by adding exponents. */
  lemma {:induction false} Pow10Add(k: nat, j: nat)
    ensures Pow10(k + j) == Pow10(k) * Pow10(j)
  {
    if j > 0 {
      Pow10Add(k, j - 1);
      assert Pow10(k + j) == 10 * Pow10(k + j - 1);
    }
  }

  /** The padded numeral of a, split before its last k digits, has a whole part without leading zero. */
  lemma PaddedWhole(a: nat, k: nat, whole: string)
    requires var t := PaddedNumeral(a, k); whole == t[..|t| - k]
    ensures WholePart(whole)
  {
    NatTextNoLeadingZero(a);
    WholeOfPadded(NatText(a), k);
  }

  /** When a has no trailing zero, the last k digits of its padded numeral are a fraction part. */
  lemma PaddedFraction(a: nat, k: nat, frac: string)
    requires k >= 1 && a % 10 != 0
    requires var t := PaddedNumeral(a, k); frac == t[|t| - k..]
    ensures FractionPart(frac)
  {
    NatTextLast(a);
    FractionOfPadded(NatText(a), k);
  }

  /** A numeral without leading zero, padded to k + 1 digits, keeps a whole part without leading zero before its last k. */
  lemma WholeOfPadded(n: string, k: nat)
    requires WholePart(n) && AllDigits(PadStart(n, k + 1, '0'))
    ensures var t := PadStart(n, k + 1, '0'); WholePart(t[..|t| - k])
  {
    var t := PadStart(n, k + 1, '0');
    if |n| < k + 1 {
      assert |t[..|t| - k]| == 1;
    } else {
      assert t == n;
    }
  }

  /** A numeral whose last digit is not zero, padded to k + 1 digits, ends in a fraction part of k digits. */
  lemma FractionOfPadded(n: string, k: nat)
    requires k >= 1 && |n| >= 1 && n[|n| - 1] != '0' && AllDigits(PadStart(n, k + 1, '0'))
    ensures var t := PadStart(n, k + 1, '0'); FractionPart(t[|t| - k..])
  {
    var t := PadStart(n, k + 1, '0');
    assert t[|t| - 1] == t[|t| - |n|..][|n| - 1] == n[|n| - 1];
    assert t[|t| - k..][k - 1] == t[|t| - 1];
  }

  /** String(a) starts with zero only when it is "0". */
  lemma NatTextNoLeadingZero(a: nat)
    ensures WholePart(NatText(a))
  {
    if NatText(a)[0] == '0' {
      assert a == 0;
    }
  }

  /** The last digit of String(a) is a's last decimal digit. */
  lemma NatTextLast(a: nat)
    ensures NatText(a)[|NatText(a)| - 1] == DigitChar(a % 10)
    ensures a % 10 != 0 ==> NatText(a)[|NatText(a)| - 1] != '0'
  {
  }

  /** UnsignedText(a, k) starts with a digit. */
  lemma UnsignedTextStartsWithDigit(a: nat, k: nat)
    ensures UnsignedText(a, k) != [] && IsDigit(UnsignedText(a, k)[0])
  {
    var whole, frac := UnsignedTextSplit(a, k);
    if k != 0 {
      assert (whole + "." + frac)[0] == whole[0];
    }
  }

  /** Negating the units negates the value. */
  lemma NegatedValue(u: int, k: nat)
    ensures RealValue(Decimal(-u, k)) == -RealValue(Decimal(u, k))
  {
    var p := Pow10(k) as real;
    assert (-u) as real / p == -(u as real / p);
  }

  /** The numeral of a padded to k + 1 digits is a digit run of value a. */
  lemma PaddedDigits(a: nat, k: nat)
    ensures var t := PadStart(NatText(a), k + 1, '0');
            AllDigits(t) && DigitsValue(t) == a && |t| >= k + 1
  {
    var t := PadStart(NatText(a), k + 1, '0');
    var z := if |NatText(a)| >= k + 1 then 0 else k + 1 - |NatText(a)|;
    assert t == Repeat('0', z) + NatText(a);
    LeadingZeros(z, NatText(a));
  }

  /**
   * UnsignedText(a, k) is a digit run of value a when k is 0, and otherwise
   * whole digits, a point and k fraction digits whose run has value a.
   */
  lemma UnsignedTextSplit(a: nat, k: nat) returns (whole: string, frac: string)
    ensures AllDigits(whole) && AllDigits(frac) && |whole| >= 1 && |frac| == k
    ensures DigitsValue(whole + frac) == a
    ensures UnsignedText(a, k) == if k == 0 then whole else whole + "." + frac
  {
    whole, frac := UnsignedTextSlices(a, k);
  }

  /** The parts of UnsignedTextSplit are the padded numeral before and after its last k digits. */
  lemma UnsignedTextSlices(a: nat, k: nat) returns (whole: string, frac: string)
    ensures AllDigits(whole) && AllDigits(frac) && |whole| >= 1 && |frac| == k
    ensures DigitsValue(whole + frac) == a
    ensures UnsignedText(a, k) == if k == 0 then whole else whole + "." + frac
    ensures var t := PaddedNumeral(a, k); whole == t[..|t| - k] && frac == t[|t| - k..]
  {
    var t := PaddedNumeral(a, k);
    whole, frac := SplitDigits(t, k);
    if k == 0 {
      assert UnsignedText(a, k) == t == whole;
    } else {
      assert UnsignedText(a, k) == whole + "." + frac;
    }
  }

  /** A digit run longer than k split before its last k digits. */
  lemma SplitDigits(t: string, k: nat) returns (whole: string, frac: string)
    requires AllDigits(t) && |t| >= k + 1
    ensures whole == t[..|t| - k] && frac == t[|t| - k..]
    ensures AllDigits(whole) && AllDigits(frac) && |whole| >= 1 && |frac| == k
    ensures whole + frac == t
    ensures k == 0 ==> whole == t
  {
    whole := t[..|t| - k];
    frac := t[|t| - k..];
    assert whole + frac == t;
  }

  /** An optionally signed UnsignedText(a, k) starts and ends visibly and parses as a * 10^-k with that sign. */
  lemma UnsignedTextParses(sign: string, a: nat, k: nat)
    requires sign == "" || sign == "-"
    ensures var t := sign + UnsignedText(a, k);
            && t != [] && !IsWhitespace(t[0]) && !IsWhitespace(t[|t| - 1])
            && ParseNumeric(t) == Some(Decimal(Signed(sign, a), k))
  {
    var whole, frac := UnsignedTextSplit(a, k);
    if k == 0 {
      assert whole + frac == whole;
      ParseSignedDigits(sign, whole);
    } else {
      ParseSignedPointed(sign, whole, frac);
    }
  }

  /** Number() of a text that starts and ends visibly is its parse. */
  lemma NumberOfVisible(t: string, d: Decimal)
    requires t != [] && !IsWhitespace(t[0]) && !IsWhitespace(t[|t| - 1])
    requires ParseNumeric(t) == Some(d)
    ensures ToNumber(Str(t)) == Num(d)
  {
    assert Trim(t) == t;
  }

  /**
   * String(x) read back by Number() is a number of the same value: the sign,
   * the digits and the place of the point survive the round trip.
   */
  lemma NumberOfDecimalText(d: Decimal)
    ensures ToNumber(Str(DecimalText(d))).Num?
    ensures RealValue(ToNumber(Str(DecimalText(d))).n) == RealValue(d)
  {
    UnsignedTextParses(SignPrefix(d), Magnitude(d).units, Magnitude(d).scale);
    NumberOfVisible(DecimalText(d), Decimal(Signed(SignPrefix(d), Magnitude(d).units), Magnitude(d).scale));
    SignedMagnitude(d, Magnitude(d));
  }

  /** A magnitude of the right value, given the sign of d, has the value of d. */
  lemma SignedMagnitude(d: Decimal, m: Decimal)
    requires RealValue(m) == RealValue(Decimal(if d.units < 0 then -d.units else d.units, d.scale))
    ensures RealValue(Decimal(Signed(SignPrefix(d), m.units), m.scale)) == RealValue(d)
  {
    if d.units < 0 {
      NegatedValue(m.units, m.scale);
      NegatedValue(d.units, d.scale);
    }
  }

  /** String(v). */
  function ToText(v: Value): (r: string)
    ensures v.Str? ==> r == v.s
    ensures v.Num? ==> r != [] && (r[0] == '-' <==> v.n.units < 0)
  {
    match v
    case Undefined => "undefined"
    case Null => "null"
    case Bool(b) => if b then "true" else "false"
    case Num(d) => DecimalText(d)
    case NaN => "NaN"
    case Str(s) => s
  }

  /**
   * String(v) of the values that are neither strings nor numbers: the
   * words JavaScript writes for them.
   */
  lemma TextOfNonNumbers(v: Value)
    ensures v.Bool? ==> ToText(v) == (if v.b then "true" else "false")
    ensures v.Null? ==> ToText(v) == "null"
    ensures v.Undefined? ==> ToText(v) == "undefined"
    ensures v.NaN? ==> ToText(v) == "NaN"
  {
  }
}
