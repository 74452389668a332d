/** The tolerant decimal parser: `decimal.TryParse` with the invariant culture, restricted to
    an optional sign, decimal digits and an optional fractional part. A decimal is a `real`. */
module DecimalParsing {
  import opened Wrappers

  predicate IsDigit(c: char) {
    '0' <= c <= '9'
  }

  predicate AllDigits(s: string) {
    forall i :: 0 <= i < |s| ==> IsDigit(s[i])
  }

  /** The natural number a string of decimal digits denotes. */
  function DigitsValue(s: string): nat
    requires AllDigits(s)
    decreases |s|
  {
    if s == [] then 0 else 10 * DigitsValue(s[..|s| - 1]) + (s[|s| - 1] as int - '0' as int)
  }

  function Pow10(n: nat): (p: nat)
    ensures p >= 1
  {
    if n == 0 then 1 else 10 * Pow10(n - 1)
  }

  /** The position of the first decimal point, if there is one. */
  function IndexOfPoint(s: string): (r: Option<nat>)
    ensures r.Some? ==> r.value < |s| && s[r.value] == '.' && '.' !in s[..r.value]
    ensures r.None? ==> '.' !in s
    decreases |s|
  {
    if s == [] then None
    else if s[0] == '.' then Some(0)
    else match IndexOfPoint(s[1..])
      case None => None
      case Some(p) =>
        assert s[..p + 1] == [s[0]] + s[1..][..p];
        Some(p + 1)
  }

  /** Digits with an optional fractional part, at least one digit in all. */
  function ParseUnsigned(s: string): Option<real> {
    match IndexOfPoint(s)
    case None =>
      if s != [] && AllDigits(s) then Some(DigitsValue(s) as real) else None
    case Some(p) =>
      var whole, fraction := s[..p], s[p + 1..];
      if AllDigits(whole) && AllDigits(fraction) && |whole| + |fraction| > 0 then
        Some(DigitsValue(whole) as real + DigitsValue(fraction) as real / Pow10(|fraction|) as real)
      else None
  }

  /** Parses a decimal number; `None` where .NET's `TryParse` reports failure. */
  function ParseDecimal(s: string): Option<real> {
    if s != [] && s[0] == '-' then
      match ParseUnsigned(s[1..])
      case None => None
      case Some(v) => Some(-v)
    else if s != [] && s[0] == '+' then ParseUnsigned(s[1..])
    else ParseUnsigned(s)
  }

  /** `decimal.TryParse` on a string reference: `null` never parses. */
  function TryParse(s: NullableString): (r: Option<real>)
    ensures s.None? ==> r.None?
    ensures s.Some? ==> r == ParseDecimal(s.value)
  {
    match s
    case None => None
    case Some(text) => ParseDecimal(text)
  }

  // ---------------------------------------------------------------------------
  // The literals the parser accepts, and the exact value of each

  datatype Sign = Unsigned | Plus | Minus

  function SignText(sign: Sign): string {
    match sign
    case Unsigned => ""
    case Plus => "+"
    case Minus => "-"
  }

  /** A decimal literal: sign, integral digits and, after a decimal point, fractional digits. */
  datatype DecimalLiteral = DecimalLiteral(sign: Sign, whole: string, fraction: Option<string>) {

    ghost predicate Valid() {
      && AllDigits(whole)
      && (fraction.Some? ==> AllDigits(fraction.value))
      && (whole != [] || (fraction.Some? && fraction.value != []))
    }

    function FractionDigits(): string {
      if fraction.Some? then fraction.value else []
    }

    /** The digits and the decimal point, without the sign. */
    function Body(): string {
      whole + (if fraction.Some? then "." + fraction.value else "")
    }

    /** The literal as text. */
    function Text(): string {
      SignText(sign) + Body()
    }

    /** The exact value, read the way a C# decimal stores it: an integer mantissa made of all
        the digits, scaled down by ten to the number of fractional digits. */
    ghost function Value(): real
      requires Valid()
    {
      var f := FractionDigits();
      var magnitude := DigitsValue(whole + f) as real / Pow10(|f|) as real;
      if sign == Minus then -magnitude else magnitude
    }
  }

  lemma AllDigitsAppend(a: string, b: string)
    requires AllDigits(a) && AllDigits(b)
    ensures AllDigits(a + b)
  {
    forall i | 0 <= i < |a + b| ensures IsDigit((a + b)[i]) {
      if i >= |a| { assert (a + b)[i] == b[i - |a|]; }
    }
  }

  /** One more digit shifts the number left by one place. */
  lemma ShiftDigit(x: int, p: int, y: int, c: int)
    ensures 10 * (x * p + y) + c == x * (10 * p) + (10 * y + c)
  {
  }

  lemma {:induction false} DigitsValueAppend(a: string, b: string)
    requires AllDigits(a) && AllDigits(b)
    ensures AllDigits(a + b)
    ensures DigitsValue(a + b) == DigitsValue(a) * Pow10(|b|) + DigitsValue(b)
    decreases |b|
  {
    AllDigitsAppend(a, b);
    if b != [] {
      var b' := b[..|b| - 1];
      var c := b[|b| - 1] as int - '0' as int;
      assert (a + b)[..|a + b| - 1] == a + b';
      assert (a + b)[|a + b| - 1] == b[|b| - 1];
      assert DigitsValue(a + b) == 10 * DigitsValue(a + b') + c;
      DigitsValueAppend(a, b');
      assert DigitsValue(b) == 10 * DigitsValue(b') + c;
      assert Pow10(|b|) == 10 * Pow10(|b'|);
      ShiftDigit(DigitsValue(a), Pow10(|b'|), DigitsValue(b'), c);
    } else {
      assert a + b == a;
    }
  }

  lemma CastProduct(a: nat, b: nat)
    ensures (a * b) as real == a as real * b as real
  {
  }

  lemma DivideSum(w: real, f: real, p: real)
    requires p > 0.0
    ensures (w * p + f) / p == w + f / p
  {
  }

  lemma ScaleStep(m: nat, w: nat, f: nat, n: nat)
    requires n >= 1 && m == w * n + f
    ensures w as real + f as real / n as real == m as real / n as real
  {
    CastProduct(w, n);
    assert m as real == w as real * n as real + f as real;
    DivideSum(w as real, f as real, n as real);
  }

  /** Scaling: whole + fraction / 10^n, as the parser computes it, is the literal's value. */
  lemma ScaledValue(whole: string, fraction: string)
    requires AllDigits(whole) && AllDigits(fraction)
    ensures AllDigits(whole + fraction)
    ensures DigitsValue(whole) as real + DigitsValue(fraction) as real / Pow10(|fraction|) as real
         == DigitsValue(whole + fraction) as real / Pow10(|fraction|) as real
  {
    DigitsValueAppend(whole, fraction);
    ScaleStep(DigitsValue(whole + fraction), DigitsValue(whole), DigitsValue(fraction), Pow10(|fraction|));
  }

  /** Digits, a point and digits parse to the scaled value of all the digits. */
  lemma ParseWholeAndFraction(whole: string, fraction: string)
    requires AllDigits(whole) && AllDigits(fraction) && |whole| + |fraction| > 0
    ensures AllDigits(whole + fraction)
    ensures ParseUnsigned(whole + "." + fraction)
         == Some(DigitsValue(whole + fraction) as real / Pow10(|fraction|) as real)
  {
    NoPointInDigits(whole);
    PointAfter(whole, fraction);
    ScaledValue(whole, fraction);
  }

  lemma NoPointInDigits(s: string)
    requires AllDigits(s)
    ensures '.' !in s
  {
    forall i | 0 <= i < |s| ensures s[i] != '.' {
      assert IsDigit(s[i]);
    }
  }

  /** The first point of `whole + "." + fraction` is the one after `whole`. */
  lemma PointAfter(whole: string, fraction: string)
    requires '.' !in whole
    ensures IndexOfPoint(whole + "." + fraction) == Some(|whole|)
    ensures (whole + "." + fraction)[..|whole|] == whole
    ensures (whole + "." + fraction)[|whole| + 1..] == fraction
  {
    var body := whole + "." + fraction;
    var p := IndexOfPoint(body);
    assert body[|whole|] == '.';
    assert body[..|whole|] == whole;
    assert p.Some? && p.value <= |whole|;
    assert body[..p.value] == whole[..p.value];
    assert p.value == |whole|;
    assert body[|whole| + 1..] == fraction;
  }

  /** The text after the sign parses to the literal's magnitude. */
  lemma ParseLiteralBody(whole: string, fraction: Option<string>)
    requires DecimalLiteral(Unsigned, whole, fraction).Valid()
    ensures ParseUnsigned(DecimalLiteral(Unsigned, whole, fraction).Body())
         == Some(DecimalLiteral(Unsigned, whole, fraction).Value())
  {
    var lit := DecimalLiteral(Unsigned, whole, fraction);
    if fraction.Some? {
      assert lit.Body() == whole + "." + fraction.value;
      ParseWholeAndFraction(whole, fraction.value);
    } else {
      assert lit.Body() == whole;
      assert lit.FractionDigits() == [] && whole + [] == whole;
      assert lit.Value() == DigitsValue(whole) as real / 1 as real;
      assert '.' !in whole by {
        forall i | 0 <= i < |whole| ensures whole[i] != '.' {
          assert IsDigit(whole[i]);
        }
      }
      assert IndexOfPoint(whole).None?;
    }
  }

  /** A sign in front of an unsigned number is read as a sign. */
  lemma ParseAfterSign(sign: Sign, body: string)
    requires body != [] && (IsDigit(body[0]) || body[0] == '.')
    ensures ParseDecimal(SignText(sign) + body)
         == if sign != Minus then ParseUnsigned(body)
            else match ParseUnsigned(body) case None => None case Some(v) => Some(-v)
  {
    var s := SignText(sign) + body;
    match sign
    case Unsigned =>
      assert s == body;
    case Plus =>
      assert s[0] == '+' && s[1..] == body;
    case Minus =>
      assert s[0] == '-' && s[1..] == body;
  }

  /** Every literal parses to its exact value. */
  lemma ParseLiteral(lit: DecimalLiteral)
    requires lit.Valid()
    ensures ParseDecimal(lit.Text()) == Some(lit.Value())
  {
    var body := lit.Body();
    assert body == DecimalLiteral(Unsigned, lit.whole, lit.fraction).Body();
    var magnitude := DecimalLiteral(Unsigned, lit.whole, lit.fraction).Value();
    ParseLiteralBody(lit.whole, lit.fraction);
    assert lit.Value() == if lit.sign == Minus then -magnitude else magnitude;
    assert IsDigit(body[0]) || body[0] == '.' by {
      if lit.whole != [] { assert body[0] == lit.whole[0]; } else { assert body[0] == '.'; }
    }
    ParseAfterSign(lit.sign, body);
  }

  /** The text an unsigned parse accepts is digits with an optional fractional part. */
  lemma UnsignedShape(body: string) returns (whole: string, fraction: Option<string>)
    requires ParseUnsigned(body).Some?
    ensures DecimalLiteral(Unsigned, whole, fraction).Valid()
    ensures DecimalLiteral(Unsigned, whole, fraction).Body() == body
  {
    match IndexOfPoint(body) {
      case None =>
        whole, fraction := body, None;
        assert body + "" == body;
      case Some(p) =>
        whole, fraction := body[..p], Some(body[p + 1..]);
        assert body == body[..p] + "." + body[p + 1..];
    }
  }

  /** Conversely, the parser accepts nothing but such literals. */
  lemma ParsedIsLiteral(s: string)
    requires ParseDecimal(s).Some?
    ensures exists lit: DecimalLiteral :: lit.Valid() && lit.Text() == s && Some(lit.Value()) == ParseDecimal(s)
  {
    var sign := if s[0] == '-' then Minus else if s[0] == '+' then Plus else Unsigned;
    var body := if sign == Unsigned then s else s[1..];
    assert s == SignText(sign) + body;
    assert ParseUnsigned(body).Some?;
    var whole, fraction := UnsignedShape(body);
    var lit := DecimalLiteral(sign, whole, fraction);
    assert lit.Body() == body;
    ParseLiteral(lit);
  }

  /** A character that belongs to no literal makes the parse fail. */
  lemma ForeignCharacterRejected(s: string, i: nat)
    requires i < |s| && !IsDigit(s[i]) && s[i] !in ".+-"
    ensures ParseDecimal(s) == None
  {
    if ParseDecimal(s).Some? {
      ParsedIsLiteral(s);
    }
  }
}
