/** The few pieces of the Java platform the core relies on: 32-bit `int` arithmetic, the
    conversions `Integer.parseInt` and `Double.parseDouble`, case-insensitive matching and
    `String.isBlank`. Each is modelled for what the core feeds it; the README lists what is not. */
module JavaLang {
  import opened Outcomes

  const IntMin: int := -0x8000_0000
  const IntMax: int := 0x7fff_ffff
  const IntRange: int := 0x1_0000_0000

  /** Values of Java's `int`. */
  predicate IsInt(x: int) {
    IntMin <= x <= IntMax
  }

  /** Java's narrowing to `int`: the low-order 32 bits, read as two's complement. This is what
      `int` multiplication, a `(int)` cast of a `long` and `BigDecimal.intValue` all do. */
  function Wrap32(x: int): (r: int)
    ensures IsInt(r)
    ensures (x - r) % IntRange == 0
    ensures IsInt(x) ==> r == x
  {
    (x - IntMin) % IntRange + IntMin
  }

  /** Two integers that agree modulo 2^32 narrow to the same `int`. */
  lemma {:induction false} Wrap32Congruent(x: int, y: int)
    requires (x - y) % IntRange == 0
    ensures Wrap32(x) == Wrap32(y)
  {
    var q := (x - y) / IntRange;
    assert x - y == q * IntRange;
    assert x - IntMin == (y - IntMin) + q * IntRange;
    ModuloShift(y - IntMin, q);
  }

  lemma {:induction false} ModuloShift(a: int, q: int)
    ensures (a + q * IntRange) % IntRange == a % IntRange
  {
    var r := a % IntRange;
    var d := a / IntRange;
    assert a == d * IntRange + r;
    assert a + q * IntRange == (d + q) * IntRange + r;
  }

  /** Narrowing after each multiplication gives the same `int` as narrowing once at the end,
      so `m * 20 * 60` in Java is `Wrap32(m * 1200)`. */
  lemma {:induction false} Wrap32Product(a: int, b: int)
    ensures Wrap32(Wrap32(a) * b) == Wrap32(a * b)
  {
    var w := Wrap32(a);
    var q := (a - w) / IntRange;
    assert a - w == q * IntRange;
    assert a * b - w * b == (q * b) * IntRange;
    assert (a * b - w * b) % IntRange == 0;
    Wrap32Congruent(w * b, a * b);
  }

  /** Truncation of a real toward zero, as `BigDecimal.intValue` discards the fraction. */
  function TruncateTowardZero(v: real): (r: int)
    ensures v >= 0.0 ==> r as real <= v < r as real + 1.0
    ensures v < 0.0 ==> r as real - 1.0 < v <= r as real
  {
    if v >= 0.0 then v.Floor else -((-v).Floor)
  }

  // --- characters -------------------------------------------------------------------------

  const KelvinSign: char := '\U{212A}'
  const LongS: char := '\U{017F}'
  const DotlessI: char := '\U{0131}'
  const DottedCapitalI: char := '\U{0130}'

  predicate IsDigit(c: char) {
    '0' <= c <= '9'
  }

  predicate AllDigits(s: string) {
    forall i :: 0 <= i < |s| ==> IsDigit(s[i])
  }

  /** `Character.toLowerCase` on the characters whose lower case is an ASCII letter (the ASCII
      capitals and the Kelvin sign); every other character is left as it is, which cannot change
      whether the result equals an ASCII word. */
  function ToLower(c: char): (r: char)
    ensures 'a' <= r <= 'z' ==> 'a' <= c <= 'z' || 'A' <= c <= 'Z' || c == KelvinSign
  {
    if 'A' <= c <= 'Z' then (c as int + 32) as char
    else if c == KelvinSign then 'k'
    else c
  }

  /** `String.toLowerCase`, character by character. */
  function LowerCase(s: string): (r: string)
    ensures |r| == |s|
    ensures forall i :: 0 <= i < |s| ==> r[i] == ToLower(s[i])
  {
    seq(|s|, i requires 0 <= i < |s| => ToLower(s[i]))
  }

  /** The lower case of the upper case of `c`, which `equalsIgnoreCase` compares, for the
      characters where that is an ASCII letter: besides ASCII letters and the Kelvin sign, the
      long s (upper case 'S'), the dotless i (upper case 'I') and the dotted capital I (whose
      lower case is 'i'). */
  function CaseFold(c: char): char {
    if 'A' <= c <= 'Z' then (c as int + 32) as char
    else if c == KelvinSign then 'k'
    else if c == LongS then 's'
    else if c == DotlessI then 'i'
    else if c == DottedCapitalI then 'i'
    else c
  }

  /** `s.equalsIgnoreCase(word)` for a lower-case ASCII `word`, the only way the core uses it. */
  predicate EqualsIgnoreCase(s: string, word: string) {
    |s| == |word| && forall i :: 0 <= i < |s| ==> s[i] == word[i] || CaseFold(s[i]) == word[i]
  }

  /** `Character.isWhitespace`: the space, line and paragraph separators other than the
      no-break spaces, and the ASCII controls tab through carriage return and 0x1C-0x1F. */
  predicate IsWhitespace(c: char) {
    || c == ' '
    || '\t' <= c <= '\r'
    || '\U{001C}' <= c <= '\U{001F}'
    || c == '\U{1680}'
    || ('\U{2000}' <= c <= '\U{200A}' && c != '\U{2007}')
    || c == '\U{2028}' || c == '\U{2029}' || c == '\U{205F}' || c == '\U{3000}'
  }

  /** `String.isBlank`: empty, or white space only. */
  predicate IsBlank(s: string) {
    forall i :: 0 <= i < |s| ==> IsWhitespace(s[i])
  }

  // --- number conversions -----------------------------------------------------------------

  /** The value of one decimal digit; the parsers call it on digits only. */
  function DigitValue(c: char): (r: nat)
    ensures IsDigit(c) ==> r == c as int - '0' as int
  {
    if IsDigit(c) then c as int - '0' as int else 0
  }

  /** The value of a string of decimal digits. */
  function DigitsValue(ds: string): nat {
    if ds == [] then 0 else DigitsValue(ds[..|ds| - 1]) * 10 + DigitValue(ds[|ds| - 1])
  }

  /** `Integer.toString` of a non-negative number: its shortest decimal digits. */
  function NaturalText(n: nat): (r: string)
    ensures |r| > 0 && AllDigits(r)
  {
    var last := [('0' as int + n % 10) as char];
    if n < 10 then last else NaturalText(n / 10) + last
  }

  /** `Integer.toString`. */
  function IntText(n: int): string {
    if n < 0 then "-" + NaturalText(-n) else NaturalText(n)
  }

  lemma {:induction false} NaturalTextValue(n: nat)
    ensures DigitsValue(NaturalText(n)) == n
  {
    var t := NaturalText(n);
    if n >= 10 {
      NaturalTextValue(n / 10);
      assert t[..|t| - 1] == NaturalText(n / 10);
    }
  }

  /** `Integer.parseInt`: an optional sign and at least one decimal digit, whose value must
      fit in an `int`; anything else is a `NumberFormatException`. */
  function ParseInt(s: string): (r: Result<int>)
    ensures r.Ok? ==> IsInt(r.value)
    ensures r.Ok? ==> |s| > 0
  {
    if s == [] then Err(NumberFormat(s))
    else
      var body := if s[0] == '-' || s[0] == '+' then s[1..] else s;
      if body == [] || !AllDigits(body) then Err(NumberFormat(s))
      else
        var n: int := if s[0] == '-' then -(DigitsValue(body) as int) else DigitsValue(body);
        if IsInt(n) then Ok(n) else Err(NumberFormat(s))
  }

  /** Parsing the text `Integer.toString` gives back every `int`. */
  lemma {:induction false} ParseIntText(n: int)
    requires IsInt(n)
    ensures ParseInt(IntText(n)) == Ok(n)
  {
    var t := IntText(n);
    if n < 0 {
      NaturalTextValue(-n);
      assert t[1..] == NaturalText(-n);
    } else {
      NaturalTextValue(n);
      assert t[0] != '-' && t[0] != '+' by { assert IsDigit(NaturalText(n)[0]); }
    }
  }

  /** `Integer.parseInt` of an optional sign and decimal digits: the signed value when it fits
      in an `int`, and a `NumberFormatException` otherwise. Leading zeros and a '+' are
      accepted, and "-0" is 0. */
  lemma ParseIntSigned(sign: string, ds: string)
    requires sign == "" || sign == "+" || sign == "-"
    requires ds != [] && AllDigits(ds)
    ensures var n := if sign == "-" then -(DigitsValue(ds) as int) else DigitsValue(ds) as int;
      ParseInt(sign + ds) == if IsInt(n) then Ok(n) else Err(NumberFormat(sign + ds))
  {
    var s := sign + ds;
    if sign == "" {
      assert s == ds && IsDigit(ds[0]);
    } else {
      assert s[1..] == ds;
    }
  }

  /** Every text `Integer.parseInt` accepts is an optional sign followed by at least one
      decimal digit, so `ParseIntSigned` covers all of them. */
  lemma ParseIntAccepts(s: string)
    requires ParseInt(s).Ok?
    ensures |s| > 0
    ensures var k := if s[0] == '-' || s[0] == '+' then 1 else 0;
      k < |s| && AllDigits(s[k..]) && s == s[..k] + s[k..]
  {
  }

  /** The value of some texts at the edges of the format. */
  lemma ParseIntExamples()
    ensures ParseInt("+7") == Ok(7) && ParseInt("007") == Ok(7) && ParseInt("-0") == Ok(0)
    ensures ParseInt("-").Err? && ParseInt("").Err? && ParseInt("1.5").Err?
  {
    ParseIntSigned("+", "7");
    assert "+" + "7" == "+7";
    ParseIntSigned("", "007");
    assert "" + "007" == "007";
    ParseIntSigned("-", "0");
    assert "-" + "0" == "-0";
    assert !IsDigit("1.5"[1]);
  }

  function IndexOf(s: string, c: char): (r: int)
    ensures -1 <= r < |s|
    ensures r == -1 <==> c !in s
    ensures r >= 0 ==> s[r] == c && c !in s[..r]
  {
    if s == [] then -1
    else if s[0] == c then 0
    else
      var k := IndexOf(s[1..], c);
      if k == -1 then -1 else k + 1
  }

  /** The text after an optional leading sign. */
  function SignedBody(s: string): (r: string)
    ensures |r| <= |s|
  {
    if s != [] && (s[0] == '-' || s[0] == '+') then s[1..] else s
  }

  /** The value of the digits `fraction` written after a decimal point: the first digit
      counts tenths, and the rest are a fraction of a tenth. */
  function FractionValue(fraction: string): real {
    if fraction == [] then 0.0
    else (DigitValue(fraction[0]) as real + FractionValue(fraction[1..])) / 10.0
  }

  /** The exact value of a decimal with the digits `whole` before the point and `fraction`
      after it. */
  function DecimalValue(whole: string, fraction: string): real {
    DigitsValue(whole) as real + FractionValue(fraction)
  }

  /** The unsigned part of a decimal: digits, and an optional fraction after the first '.',
      with at least one digit in all; `None` for anything else. */
  function DecimalMagnitude(body: string): (r: Option<real>)
    ensures r.Some? ==> body != []
  {
    var dot := IndexOf(body, '.');
    var whole := if dot < 0 then body else body[..dot];
    var fraction := if dot < 0 then "" else body[dot + 1..];
    if !AllDigits(whole) || !AllDigits(fraction) || |whole| + |fraction| == 0 then None
    else Some(DecimalValue(whole, fraction))
  }

  /** `Double.parseDouble` on plain decimal text: an optional sign, digits, and an optional
      fraction after a '.', with at least one digit in all. The value is the exact decimal. */
  function ParseDecimal(s: string): Result<real> {
    match DecimalMagnitude(SignedBody(s))
    case None => Err(NumberFormat(s))
    case Some(magnitude) => Ok(if s[0] == '-' then -magnitude else magnitude)
  }

  /** The decimal parser reads the magnitude after the sign and negates it after a '-'. */
  lemma ParseDecimalOfMagnitude(s: string)
    ensures var m := DecimalMagnitude(SignedBody(s));
      ParseDecimal(s) == if m.None? then Err(NumberFormat(s)) else Ok(if s[0] == '-' then -m.value else m.value)
  {
  }

  /** Digits without a '.' are a whole number. */
  lemma DecimalWhole(whole: string)
    ensures whole != [] && AllDigits(whole) ==> DecimalMagnitude(whole) == Some(DigitsValue(whole) as real)
  {
    if whole != [] && AllDigits(whole) {
      assert '.' !in whole by { assert forall i :: 0 <= i < |whole| ==> IsDigit(whole[i]); }
      assert DecimalValue(whole, "") == DigitsValue(whole) as real;
    }
  }

  /** The first '.' after a run of digits is the one right after them. */
  lemma DotAfterDigits(whole: string, fraction: string)
    requires AllDigits(whole)
    ensures IndexOf(DecimalText(whole, fraction), '.') == |whole|
  {
    var t := DecimalText(whole, fraction);
    assert t[|whole|] == '.';
    assert forall i :: 0 <= i < |whole| ==> t[i] == whole[i];
  }

  /** The text of a decimal: the whole part, a point, and the fraction. */
  function DecimalText(whole: string, fraction: string): (r: string)
    ensures |r| == |whole| + 1 + |fraction| && r[|whole|] == '.'
  {
    whole + "." + fraction
  }

  /** Digits, a '.' and digits are read as the whole part plus the fraction. */
  lemma DecimalFraction(whole: string, fraction: string)
    requires AllDigits(whole) && AllDigits(fraction)
    ensures DecimalMagnitude(DecimalText(whole, fraction)) ==
      if |whole| + |fraction| == 0 then None else Some(DecimalValue(whole, fraction))
  {
    var body := DecimalText(whole, fraction);
    DotAfterDigits(whole, fraction);
    var dot := IndexOf(body, '.');
    assert body[..dot] == whole;
    assert body[dot + 1..] == fraction;
  }

  /** A sign in front of a text that does not itself start with a sign is stripped again. */
  lemma SignedBodyOf(sign: string, body: string)
    requires sign == "" || sign == "+" || sign == "-"
    requires body != [] && body[0] != '-' && body[0] != '+'
    ensures SignedBody(sign + body) == body
    ensures (sign + body)[0] == '-' <==> sign == "-"
  {
    if sign == "" {
      assert sign + body == body;
    } else {
      assert (sign + body)[1..] == body;
    }
  }

  /** `Double.parseDouble` of an optional sign, digits, a '.' and more digits, with at least one
      digit in all: the exact signed decimal. "5." and ".5" are accepted; "." is not. */
  lemma ParseDecimalSigned(sign: string, whole: string, fraction: string)
    requires sign == "" || sign == "+" || sign == "-"
    requires AllDigits(whole) && AllDigits(fraction)
    ensures |whole| + |fraction| > 0 ==>
      ParseDecimal(sign + DecimalText(whole, fraction)) ==
        Ok(Signed(sign, DecimalValue(whole, fraction)))
    ensures |whole| + |fraction| == 0 ==> ParseDecimal(sign + DecimalText(whole, fraction)).Err?
  {
    var body := DecimalText(whole, fraction);
    assert body[0] != '-' && body[0] != '+' by {
      if whole == [] { assert body[0] == '.'; } else { assert body[0] == whole[0] && IsDigit(whole[0]); }
    }
    DecimalFraction(whole, fraction);
    if |whole| + |fraction| > 0 {
      SignedValue(sign, body, DecimalValue(whole, fraction));
    } else {
      SignedMagnitude(sign, body);
    }
  }

  /** `x`, negated after a '-' sign. */
  function Signed(sign: string, x: real): real {
    if sign == "-" then -x else x
  }

  /** A signed body whose magnitude is `x` reads as `x`, or `-x` after a '-'. */
  lemma SignedValue(sign: string, body: string, x: real)
    requires sign == "" || sign == "+" || sign == "-"
    requires body != [] && body[0] != '-' && body[0] != '+'
    requires DecimalMagnitude(body) == Some(x)
    ensures ParseDecimal(sign + body) == Ok(Signed(sign, x))
  {
    SignedMagnitude(sign, body);
  }

  /** A sign in front of a body that does not start with one: the body's magnitude, negated
      after a '-'. */
  lemma SignedMagnitude(sign: string, body: string)
    requires sign == "" || sign == "+" || sign == "-"
    requires body != [] && body[0] != '-' && body[0] != '+'
    ensures ParseDecimal(sign + body) ==
      match DecimalMagnitude(body)
      case None => Err(NumberFormat(sign + body))
      case Some(x) => Ok(Signed(sign, x))
  {
    SignedBodyOf(sign, body);
    ParseDecimalOfMagnitude(sign + body);
  }

  /** `Double.parseDouble` of an optional sign and at least one digit, without a '.': the
      signed whole number. */
  lemma ParseDecimalWhole(sign: string, whole: string)
    requires sign == "" || sign == "+" || sign == "-"
    requires whole != [] && AllDigits(whole)
    ensures ParseDecimal(sign + whole) == Ok(Signed(sign, DigitsValue(whole) as real))
  {
    assert IsDigit(whole[0]);
    SignedBodyOf(sign, whole);
    DecimalWhole(whole);
  }

  /** Every text the decimal parser accepts is an optional sign followed by digits with at most
      one '.' among them, and at least one digit, so the two lemmas above cover all of them. */
  lemma ParseDecimalAccepts(s: string)
    requires ParseDecimal(s).Ok?
    ensures |s| > 0
    ensures var body := SignedBody(s);
      var d := IndexOf(body, '.');
      && (d < 0 ==> body != [] && AllDigits(body))
      && (d >= 0 ==> AllDigits(body[..d]) && AllDigits(body[d + 1..]) && |body| > 1)
  {
  }

  // --- case-insensitive matching and blank text ----------------------------------------------

  /** A text whose lower case is a lower-case ASCII word equals that word ignoring case, so
      "BLOCK" and "Block" both name the block placement and "TRUE" reads as true. */
  lemma LowerCaseMatchIgnoresCase(s: string, word: string)
    requires forall i :: 0 <= i < |word| ==> 'a' <= word[i] <= 'z'
    requires LowerCase(s) == word
    ensures EqualsIgnoreCase(s, word)
  {
    forall i | 0 <= i < |s|
      ensures s[i] == word[i] || CaseFold(s[i]) == word[i]
    {
      assert ToLower(s[i]) == word[i];
    }
  }

  /** `equalsIgnoreCase` also accepts characters that `toLowerCase` leaves alone: the long s
      matches 's', so the two ways the core compares names differ. */
  lemma IgnoreCaseWiderThanLowerCase()
    ensures EqualsIgnoreCase([LongS], "s") && LowerCase([LongS]) != "s"
  {
    assert LowerCase([LongS])[0] == LongS;
  }

  /** A text is blank exactly when both of its parts are; the empty text is blank and a text
      with a visible character is not. */
  lemma BlankConcat(a: string, b: string)
    ensures IsBlank(a + b) <==> IsBlank(a) && IsBlank(b)
    ensures IsBlank("") && !IsBlank(a + "x" + b)
  {
    if IsBlank(a + b) {
      forall i | 0 <= i < |a| ensures IsWhitespace(a[i]) { assert (a + b)[i] == a[i]; }
      forall i | 0 <= i < |b| ensures IsWhitespace(b[i]) { assert (a + b)[|a| + i] == b[i]; }
    }
    assert (a + "x" + b)[|a|] == 'x';
  }
}
