/**
 * The JavaScript string and number primitives the system relies on:
 * `String.prototype.toUpperCase`, `parseInt`, `parseFloat` and the
 * conversion of a value to text inside a template literal.
 */
module JsText {
  import opened Wrappers
  import opened Js

  /** StrWhiteSpaceChar of ECMAScript: the characters `parseInt`/`parseFloat` skip at the start. */
  predicate IsStrWhiteSpace(c: char) {
    var n := c as int;
    n == 0x09 || n == 0x0A || n == 0x0B || n == 0x0C || n == 0x0D || n == 0x20
    || n == 0xA0 || n == 0x1680 || (0x2000 <= n <= 0x200A) || n == 0x2028
    || n == 0x2029 || n == 0x202F || n == 0x205F || n == 0x3000 || n == 0xFEFF
  }

  /** `s` without its leading white space. */
  function TrimStart(s: string): (r: string)
    ensures |r| <= |s| && r == s[|s| - |r|..]
    ensures |r| > 0 ==> !IsStrWhiteSpace(r[0])
    ensures forall i :: 0 <= i < |s| - |r| ==> IsStrWhiteSpace(s[i])
  {
    if |s| > 0 && IsStrWhiteSpace(s[0]) then TrimStart(s[1..]) else s
  }

  // ---------------------------------------------------------------- case

  /** Upper-case mapping of one character (ASCII letters only). */
  function UpperChar(c: char): char {
    if 'a' <= c <= 'z' then (c as int - 32) as char else c
  }

  predicate IsLowerAscii(c: char) {
    'a' <= c <= 'z'
  }

  /** `s.toUpperCase()`, for the ASCII range. */
  function Upper(s: string): (r: string)
    ensures |r| == |s|
    ensures forall i :: 0 <= i < |s| && IsLowerAscii(s[i]) ==> r[i] as int == s[i] as int - 32
    ensures forall i :: 0 <= i < |s| && !IsLowerAscii(s[i]) ==> r[i] == s[i]
  {
    seq(|s|, i requires 0 <= i < |s| => UpperChar(s[i]))
  }

  /** Upper-casing leaves no lower-case letter, and doing it twice changes nothing. */
  lemma UpperIsCanonical(s: string)
    ensures forall i :: 0 <= i < |Upper(s)| ==> !IsLowerAscii(Upper(s)[i])
    ensures Upper(Upper(s)) == Upper(s)
    ensures |Upper(s)| == |s| && (s == "" <==> Upper(s) == "")
  {
  }

  // -------------------------------------------------------------- digits

  /** The value of `c` as a digit of a radix up to 16, or 16 when it is none. */
  function DigitOf(c: char): nat {
    if '0' <= c <= '9' then c as int - '0' as int
    else if 'a' <= c <= 'f' then c as int - 'a' as int + 10
    else if 'A' <= c <= 'F' then c as int - 'A' as int + 10
    else 16
  }

  predicate IsDigit(c: char, radix: nat) {
    DigitOf(c) < radix
  }

  /** The longest prefix of `s` made of radix-`radix` digits. */
  function DigitPrefix(s: string, radix: nat): (z: string)
    ensures |z| <= |s| && z == s[..|z|]
    ensures forall i :: 0 <= i < |z| ==> IsDigit(z[i], radix)
    ensures |z| < |s| ==> !IsDigit(s[|z|], radix)
  {
    if |s| > 0 && IsDigit(s[0], radix) then [s[0]] + DigitPrefix(s[1..], radix) else ""
  }

  /** The number a digit string denotes in the given radix. */
  function DigitsValue(z: string, radix: nat): nat {
    if |z| == 0 then 0 else DigitsValue(z[..|z| - 1], radix) * radix + DigitOf(z[|z| - 1])
  }

  function DigitChar(d: nat): (c: char)
    requires d < 10
  {
    ('0' as int + d) as char
  }

  /** Decimal text of a natural number, as JavaScript prints integers below 10^21. */
  function NatToString(n: nat): (s: string)
    ensures |s| >= 1
    ensures forall i :: 0 <= i < |s| ==> IsDigit(s[i], 10)
    ensures s[0] == '0' ==> n == 0
    decreases n
  {
    if n < 10 then [DigitChar(n)] else NatToString(n / 10) + [DigitChar(n % 10)]
  }

  function IntToString(n: int): (s: string) {
    if n < 0 then "-" + NatToString(-n) else NatToString(n)
  }

  /** Reading back the decimal text of `n` gives `n`. */
  lemma {:induction false} NatToStringValue(n: nat)
    ensures DigitsValue(NatToString(n), 10) == n
    decreases n
  {
    var s := NatToString(n);
    if n >= 10 {
      NatToStringValue(n / 10);
      assert s[..|s| - 1] == NatToString(n / 10);
      assert DigitOf(s[|s| - 1]) == n % 10;
    }
  }

  /** A run of digits followed by a non-digit is exactly the digit prefix. */
  lemma {:induction false} DigitPrefixOfDigits(z: string, rest: string, radix: nat)
    requires forall i :: 0 <= i < |z| ==> IsDigit(z[i], radix)
    requires rest == "" || !IsDigit(rest[0], radix)
    ensures DigitPrefix(z + rest, radix) == z
  {
    if |z| > 0 {
      assert (z + rest)[1..] == z[1..] + rest;
      DigitPrefixOfDigits(z[1..], rest, radix);
    } else {
      assert z + rest == rest;
    }
  }

  // ------------------------------------------------------------ parseInt

  /** Whether the (trimmed) text starts with a minus sign. */
  predicate Negative(t: string) {
    |t| > 0 && t[0] == '-'
  }

  /** The text after an optional leading sign. */
  function Unsigned(t: string): (u: string)
    ensures |u| <= |t| && u == t[|t| - |u|..]
  {
    if |t| > 0 && (t[0] == '-' || t[0] == '+') then t[1..] else t
  }

  /**
   * The unsigned integer at the head of `u`: radix 16 after a `0x`/`0X`
   * prefix, radix 10 otherwise, read over the longest run of digits.
   */
  function IntDigits(u: string): (r: Option<nat>)
    ensures r.Some? ==> exists i :: 0 <= i < |u| && IsDigit(u[i], 16)
  {
    var hex := |u| >= 2 && u[0] == '0' && (u[1] == 'x' || u[1] == 'X');
    var radix := if hex then 16 else 10;
    var w := if hex then u[2..] else u;
    var z := DigitPrefix(w, radix);
    if |z| == 0 then None
    else
      assert w[0] == u[|u| - |w|] && IsDigit(w[0], 16);
      Some(DigitsValue(z, radix))
  }

  /**
   * `parseInt(s)` with no radix argument: skip leading white space, take an
   * optional sign, then read the unsigned integer. No digits gives NaN (`None`).
   */
  function ParseInt(s: string): (r: Option<int>)
    ensures r.Some? ==> exists i :: 0 <= i < |s| && IsDigit(s[i], 16)
  {
    var t := TrimStart(s);
    var u := Unsigned(t);
    match IntDigits(u)
    case None => None
    case Some(m) =>
      ghost var k :| 0 <= k < |u| && IsDigit(u[k], 16);
      assert u[k] == s[|s| - |u| + k];
      Some(if Negative(t) then -(m as int) else m)
  }

  /**
   * Whether the text after the sign starts with something `parseInt` reads:
   * a hexadecimal digit after a `0x`/`0X` prefix, a decimal digit otherwise.
   */
  predicate StartsWithDigit(u: string) {
    if |u| >= 2 && u[0] == '0' && (u[1] == 'x' || u[1] == 'X') then |u| >= 3 && IsDigit(u[2], 16)
    else |u| >= 1 && IsDigit(u[0], 10)
  }

  /** No digits are read exactly when the text does not start with one. */
  lemma DigitPrefixEmpty(w: string, radix: nat)
    ensures DigitPrefix(w, radix) == "" <==> |w| == 0 || !IsDigit(w[0], radix)
  {
  }

  /** The unsigned reader finds no integer exactly when no digit starts the text. */
  lemma IntDigitsNone(u: string)
    ensures IntDigits(u).None? <==> !StartsWithDigit(u)
  {
    var hex := |u| >= 2 && u[0] == '0' && (u[1] == 'x' || u[1] == 'X');
    var w := if hex then u[2..] else u;
    DigitPrefixEmpty(w, if hex then 16 else 10);
    assert hex && |w| > 0 ==> w[0] == u[2];
  }

  /**
   * `parseInt` is NaN exactly when, after the leading white space and an
   * optional sign (and a `0x` prefix), no digit follows: `""`, `"abc"`,
   * `"-"`, `"0x"` and `".5"` are all NaN.
   */
  lemma ParseIntNaN(s: string)
    ensures ParseInt(s).None? <==> !StartsWithDigit(Unsigned(TrimStart(s)))
  {
    IntDigitsNone(Unsigned(TrimStart(s)));
  }

  /** The decimal text of `n` followed by `rest` is its own trimmed text, and its sign says whether `n` is negative. */
  lemma SignedText(n: int, rest: string)
    ensures TrimStart(IntToString(n) + rest) == IntToString(n) + rest
    ensures Negative(IntToString(n) + rest) <==> n < 0
    ensures Unsigned(IntToString(n) + rest) == NatToString(if n < 0 then -n else n) + rest
  {
    var s := IntToString(n) + rest;
    assert s[0] == IntToString(n)[0];
    assert s[0] == '-' || IsDigit(s[0], 10);
    assert !IsStrWhiteSpace(s[0]);
    assert TrimStart(s) == s;
    if n < 0 {
      assert s[0] == '-';
      assert s[1..] == NatToString(-n) + rest;
    } else {
      assert IsDigit(s[0], 10) && s[0] != '-' && s[0] != '+';
    }
  }

  /** Decimal digits followed by anything that does not continue the number read back as their value. */
  lemma IntDigitsOfDecimal(m: nat, rest: string)
    requires rest == "" || !IsDigit(rest[0], 10)
    requires m == 0 && |rest| > 0 ==> rest[0] != 'x' && rest[0] != 'X'
    ensures IntDigits(NatToString(m) + rest) == Some(m)
  {
    var digits := NatToString(m);
    var u := digits + rest;
    assert !(|u| >= 2 && u[0] == '0' && (u[1] == 'x' || u[1] == 'X')) by {
      if u[0] == '0' {
        assert m == 0 && digits == "0";
      }
    }
    DigitPrefixOfDigits(digits, rest, 10);
    NatToStringValue(m);
  }

  /**
   * `parseInt` reads back the decimal text of any integer, and ignores what
   * follows it unless that continues the number (another digit, or an `x`
   * turning a lone `0` into a hexadecimal prefix): `"5abc"` and `"3.7"` read
   * as 5 and 3.
   */
  lemma ParseIntReadsDecimal(n: int, rest: string)
    requires rest == "" || !IsDigit(rest[0], 10)
    requires n == 0 && |rest| > 0 ==> rest[0] != 'x' && rest[0] != 'X'
    ensures ParseInt(IntToString(n) + rest) == Some(n)
  {
    SignedText(n, rest);
    IntDigitsOfDecimal(if n < 0 then -n else n, rest);
  }

  /** The decimal text of an integer reads back as that integer. */
  lemma ParseIntRoundTrip(n: int)
    ensures ParseInt(IntToString(n)) == Some(n)
  {
    ParseIntReadsDecimal(n, "");
    assert IntToString(n) + "" == IntToString(n);
  }

  // ---------------------------------------------------------- parseFloat

  function Pow10(k: nat): (r: nat)
    ensures r >= 1
  {
    if k == 0 then 1 else 10 * Pow10(k - 1)
  }

  /** The exponent an `e`/`E` part at the head of `tail` denotes, 0 when there is no complete one. */
  function Exponent(tail: string): int {
    if |tail| >= 2 && (tail[0] == 'e' || tail[0] == 'E') then
      var signed := tail[1] == '+' || tail[1] == '-';
      var digits := DigitPrefix(if signed then tail[2..] else tail[1..], 10);
      if |digits| == 0 then 0
      else if tail[1] == '-' then -(DigitsValue(digits, 10) as int)
      else DigitsValue(digits, 10)
    else 0
  }

  /** An unsigned decimal literal: `digits` times 10 to the power `exponent`, or `Infinity`. */
  datatype Literal = Finite(digits: nat, exponent: int) | Infinite

  /**
   * The unsigned decimal literal at the head of `u`: digits, an optional
   * fraction and an optional exponent, or `Infinity`. `None` when `u` starts
   * with none of these.
   */
  function DecimalLiteral(u: string): (r: Option<Literal>) {
    if StartsWithInfinity(u) then Some(Infinite)
    else
      var whole := DigitPrefix(u, 10);
      var rest := u[|whole|..];
      var frac := FractionDigits(rest);
      if |whole| == 0 && |frac| == 0 then None
      else Some(Finite(DigitsValue(whole + frac, 10), Exponent(AfterFraction(rest)) - |frac|))
  }

  predicate StartsWithInfinity(u: string) {
    |u| >= 8 && u[..8] == "Infinity"
  }

  /** The fraction digits of a literal, read after a point at the head of `rest`; none without a point. */
  function FractionDigits(rest: string): (frac: string)
    ensures |rest| > 0 && rest[0] == '.' ==> |frac| < |rest|
  {
    if |rest| > 0 && rest[0] == '.' then DigitPrefix(rest[1..], 10) else ""
  }

  /** What follows the point and fraction digits at the head of `rest`. */
  function AfterFraction(rest: string): string {
    if |rest| > 0 && rest[0] == '.' then rest[1 + |FractionDigits(rest)|..] else rest
  }

  /** A point, fraction digits, and a tail that cannot continue them. */
  lemma {:induction false} PointFraction(frac: string, rest: string)
    requires forall i :: 0 <= i < |frac| ==> IsDigit(frac[i], 10)
    requires rest == "" || !IsDigit(rest[0], 10)
    ensures FractionDigits("." + (frac + rest)) == frac
    ensures AfterFraction("." + (frac + rest)) == rest
  {
    var after := "." + (frac + rest);
    assert after[1..] == frac + rest;
    DigitPrefixOfDigits(frac, rest, 10);
    assert after[1 + |frac|..] == rest;
  }

  /** Text starting with a digit does not start with `Infinity`. */
  lemma DigitIsNotInfinity(u: string)
    requires |u| > 0 && IsDigit(u[0], 10)
    ensures !StartsWithInfinity(u)
  {
    if |u| >= 8 {
      assert u[..8][0] == u[0];
    }
  }

  /**
   * `parseFloat(s)`: skip leading white space, take an optional sign, then
   * the longest prefix that is `Infinity` or a decimal literal. No such
   * prefix gives NaN.
   */
  function ParseFloat(s: string): (r: Value)
    ensures r.Num? || r.NaN? || r.Infinity?
  {
    var t := TrimStart(s);
    match DecimalLiteral(Unsigned(t))
    case None => NaN
    case Some(Infinite) => Infinity(Negative(t))
    case Some(Finite(digits, exponent)) =>
      var magnitude := Magnitude(digits, exponent);
      Num(if Negative(t) then -magnitude else magnitude)
  }

  /** The value of a finite literal: its digits times ten to the power of its exponent. */
  function Magnitude(digits: nat, exponent: int): real
    decreases if exponent < 0 then -exponent else exponent
  {
    if exponent == 0 then digits as real
    else if exponent > 0 then 10.0 * Magnitude(digits, exponent - 1)
    else Magnitude(digits, exponent + 1) / 10.0
  }

  /** Decimal digits followed by a character that cannot continue a literal read back as their value. */
  lemma DecimalLiteralOfInteger(m: nat, rest: string)
    requires rest == "" || (!IsDigit(rest[0], 10) && rest[0] != '.' && rest[0] != 'e' && rest[0] != 'E')
    ensures DecimalLiteral(NatToString(m) + rest) == Some(Finite(m, 0))
  {
    var digits := NatToString(m);
    var u := digits + rest;
    assert u[0] == digits[0];
    DigitIsNotInfinity(u);
    DigitPrefixOfDigits(digits, rest, 10);
    assert u[|digits|..] == rest;
    assert digits + "" == digits;
    NatToStringValue(m);
  }

  /**
   * `parseFloat` reads back the decimal text of any integer and stops at the
   * first character that cannot continue a decimal literal.
   */
  lemma ParseFloatReadsInteger(n: int, rest: string)
    requires rest == "" || (!IsDigit(rest[0], 10) && rest[0] != '.' && rest[0] != 'e' && rest[0] != 'E')
    ensures ParseFloat(IntToString(n) + rest) == Num(n as real)
  {
    SignedText(n, rest);
    DecimalLiteralOfInteger(if n < 0 then -n else n, rest);
  }

  /** The literal read from whole digits, a point, fraction digits and a tail with no exponent. */
  lemma DecimalLiteralAfterPoint(whole: string, frac: string, rest: string, digits: nat, exponent: int)
    requires |whole| > 0 && forall i :: 0 <= i < |whole| ==> IsDigit(whole[i], 10)
    requires forall i :: 0 <= i < |frac| ==> IsDigit(frac[i], 10)
    requires rest == "" || (!IsDigit(rest[0], 10) && rest[0] != 'e' && rest[0] != 'E')
    requires digits == DigitsValue(whole + frac, 10) && exponent == -|frac|
    ensures DecimalLiteral(whole + ("." + (frac + rest))) == Some(Finite(digits, exponent))
  {
    var after := "." + (frac + rest);
    var u := whole + after;
    assert !StartsWithInfinity(u) by {
      assert u[0] == whole[0];
      DigitIsNotInfinity(u);
    }
    assert DigitPrefix(u, 10) == whole && u[|whole|..] == after by {
      DigitPrefixOfDigits(whole, after, 10);
    }
    assert FractionDigits(after) == frac && AfterFraction(after) == rest by {
      PointFraction(frac, rest);
    }
    NoExponent(rest);
    LiteralParts(u, whole, after, frac, rest);
  }

  /** How `DecimalLiteral` assembles a finite literal from its parts. */
  lemma LiteralParts(u: string, whole: string, after: string, frac: string, rest: string)
    requires !StartsWithInfinity(u) && |whole| > 0
    requires DigitPrefix(u, 10) == whole && |whole| <= |u| && u[|whole|..] == after
    requires FractionDigits(after) == frac && AfterFraction(after) == rest && Exponent(rest) == 0
    ensures DecimalLiteral(u) == Some(Finite(DigitsValue(whole + frac, 10), -|frac|))
  {
  }

  /** A tail that does not start with `e` or `E` carries no exponent. */
  lemma NoExponent(tail: string)
    requires tail == "" || (tail[0] != 'e' && tail[0] != 'E')
    ensures Exponent(tail) == 0
  {
  }

  /** The text of a sign and an unsigned literal starting with a digit is already trimmed. */
  lemma SignedLiteral(negative: bool, u: string)
    requires |u| > 0 && IsDigit(u[0], 10)
    ensures var t := (if negative then "-" else "") + u;
      TrimStart(t) == t && (Negative(t) <==> negative) && Unsigned(t) == u
  {
    var t := (if negative then "-" else "") + u;
    assert t[0] == (if negative then '-' else u[0]);
    assert !IsStrWhiteSpace(t[0]);
    if negative {
      assert t[1..] == u;
    }
  }

  /**
   * `parseFloat` of a decimal fraction such as a stored price `"150.25"`:
   * the digits on both sides of the point divided by ten to the number of
   * fraction digits, negated after a minus sign. Whatever follows that
   * cannot continue the literal is ignored.
   */
  lemma ParseFloatReadsDecimal(negative: bool, whole: string, frac: string, rest: string, text: string, value: real)
    requires |whole| > 0 && forall i :: 0 <= i < |whole| ==> IsDigit(whole[i], 10)
    requires forall i :: 0 <= i < |frac| ==> IsDigit(frac[i], 10)
    requires rest == "" || (!IsDigit(rest[0], 10) && rest[0] != 'e' && rest[0] != 'E')
    requires text == (if negative then "-" else "") + (whole + ("." + (frac + rest)))
    requires value == DecimalValue(whole, frac)
    ensures ParseFloat(text) == Num(if negative then -value else value)
  {
    var u := whole + ("." + (frac + rest));
    var digits := DigitsValue(whole + frac, 10);
    var exponent := -|frac|;
    assert |u| > 0 && IsDigit(u[0], 10) && DecimalLiteral(u) == Some(Finite(digits, exponent)) by {
      assert u[0] == whole[0];
      DecimalLiteralAfterPoint(whole, frac, rest, digits, exponent);
    }
    FractionIsQuotient(digits, |frac|);
    SameReading(negative, text, u, digits, exponent, value);
  }

  /** A signed text whose literal has a known magnitude reads as that magnitude, under any name for it. */
  lemma SameReading(negative: bool, text: string, u: string, digits: nat, exponent: int, value: real)
    requires |u| > 0 && IsDigit(u[0], 10)
    requires DecimalLiteral(u) == Some(Finite(digits, exponent))
    requires text == (if negative then "-" else "") + u
    requires value == Magnitude(digits, exponent)
    ensures ParseFloat(text) == Num(if negative then -value else value)
  {
    ParseFloatOfLiteral(negative, u, digits, exponent);
  }

  /** The number `whole.frac` spells: both digit runs read as one integer, divided by ten to the fraction's length. */
  function DecimalValue(whole: string, frac: string): real {
    (DigitsValue(whole + frac, 10) as real) / (Pow10(|frac|) as real)
  }

  /** A sign and a finite literal starting with a digit read as the literal's value, negated after a minus. */
  lemma ParseFloatOfLiteral(negative: bool, u: string, digits: nat, exponent: int)
    requires |u| > 0 && IsDigit(u[0], 10)
    requires DecimalLiteral(u) == Some(Finite(digits, exponent))
    ensures var magnitude := Magnitude(digits, exponent);
      ParseFloat((if negative then "-" else "") + u) == Num(if negative then -magnitude else magnitude)
  {
    SignedLiteral(negative, u);
    ReadsLiteral((if negative then "-" else "") + u, u, digits, exponent);
  }

  /** A trimmed text whose unsigned part is a finite literal reads as that literal's magnitude, signed. */
  lemma ReadsLiteral(t: string, u: string, digits: nat, exponent: int)
    requires TrimStart(t) == t && Unsigned(t) == u
    requires DecimalLiteral(u) == Some(Finite(digits, exponent))
    ensures var magnitude := Magnitude(digits, exponent);
      ParseFloat(t) == Num(if Negative(t) then -magnitude else magnitude)
  {
  }

  /** A literal with `k` fraction digits denotes its digits divided by ten `k` times. */
  lemma {:induction false} FractionIsQuotient(digits: nat, k: nat)
    ensures Magnitude(digits, -(k as int)) == (digits as real) / (Pow10(k) as real)
  {
    if k > 0 {
      FractionIsQuotient(digits, k - 1);
      var p := Pow10(k - 1) as real;
      assert Pow10(k) as real == 10.0 * p;
      assert ((digits as real) / p) / 10.0 == (digits as real) / (10.0 * p);
    }
  }

  /** A stored price reads as the number it spells. */
  lemma StoredPriceReadsBack()
    ensures ParseFloat("150.25") == Num(150.25)
  {
    var z := "15025";
    assert DigitsValue(z, 10) == 15025 by {
      assert z[..4] == "1502" && z[..4][..3] == "150" && z[..4][..3][..2] == "15" && z[..4][..3][..2][..1] == "1";
      assert DigitsValue("1", 10) == 1;
      assert DigitsValue("15", 10) == 15;
      assert DigitsValue("150", 10) == 150;
      assert DigitsValue("1502", 10) == 1502;
    }
    assert "150" + "25" == z;
    var value := DecimalValue("150", "25");
    assert value == 150.25 by {
      assert Pow10(|"25"|) == 100;
      assert value == 15025.0 / 100.0;
    }
    ParseFloatReadsDecimal(false, "150", "25", "", "150.25", value);
  }


  // ------------------------------------------------------ template text

  /** Whether a number is printed by JavaScript as a plain integer. */
  predicate PrintsAsInteger(n: real) {
    n == n.Floor as real && -1000000000000000000000.0 < n < 1000000000000000000000.0
  }

  /**
   * The text `${v}` produces in a template literal, for the values whose
   * JavaScript string form this model covers; `None` for non-integral or huge
   * numbers and for arrays, whose printing is not modelled.
   */
  function ToText(v: Value): (r: Option<string>)
    ensures v.Str? ==> r == Some(v.s)
    ensures v.Num? && PrintsAsInteger(v.n) ==> r == Some(IntToString(v.n.Floor))
  {
    match v
    case Undefined => Some("undefined")
    case Null => Some("null")
    case Bool(b) => Some(if b then "true" else "false")
    case Num(n) =>
      if PrintsAsInteger(n) then Some(IntToString(n.Floor))
      else None
    case NaN => Some("NaN")
    case Infinity(negative) => Some(if negative then "-Infinity" else "Infinity")
    case Str(s) => Some(s)
    case Arr(_) => None
    case Obj(_) => Some("[object Object]")
  }

  /** The text an integer-valued number prints as reads back, through `parseInt`, as that number. */
  lemma IntegerTextReadsBack(n: real)
    requires PrintsAsInteger(n)
    ensures ToText(Num(n)).Some? && ParseInt(ToText(Num(n)).value) == Some(n.Floor)
  {
    ParseIntRoundTrip(n.Floor);
  }
}
