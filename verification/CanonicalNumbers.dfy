/** How canonical number texts read, and which numbers share one. */
module CanonicalNumbers {
  import opened Prelude
  import opened Json
  import opened JsonReader
  import opened Text
  import opened Canonical

  predicate IsNumberChar(c: char) {
    IsDigit(c) || c == '-' || c == '.' || c == 'e'
  }

  predicate IsMantissaChar(c: char) {
    IsDigit(c) || c == '-' || c == '.'
  }

  lemma MantissaShape(f: Float)
    requires f.Scientific? && WellFormedFloat(f)
    ensures Mantissa(f) != "" && All(IsMantissaChar, Mantissa(f))
    ensures Mantissa(f)[0] == '-' <==> f.negative
    ensures Mantissa(f)[|Mantissa(f)| - 1] != '0' && Mantissa(f)[|Mantissa(f)| - 1] != '.'
  {
  }

  /** Following the renderer branch by branch: it returns the scientific text,
      shortened when the exponent is zero, or reports an inexact number. */
  lemma CanonicalNumberText(num: Number, parse: Reparse)
    requires num.Decimal? ==> WellFormedFloat(num.f)
    ensures CanonicalNumber(num, parse)
         == if ExactNumber(num, parse) then Ok(NumberText(num)) else Err(NonExactNumber)
  {
    if num.Decimal? && num.f.Scientific? {
      var f := num.f;
      MantissaShape(f);
      assert TrimEnd(TrimEnd(Mantissa(f), '0'), '.') == Mantissa(f);
      if f.exponent == 0 {
        assert NumberText(num) == Mantissa(f);
      } else {
        NoLeadingZero(if f.exponent < 0 then -f.exponent else f.exponent);
        assert TrimStart(IntText(f.exponent), '0') == IntText(f.exponent);
        assert DropPointZero(Mantissa(f)) == Mantissa(f) by {
          var m := Mantissa(f);
          assert |m| >= 2 ==> m[|m| - 2..][1] == m[|m| - 1];
        }
        assert NumberText(num) == Mantissa(f) + "e" + IntText(f.exponent);
      }
    }
  }

  lemma NumberTextShape(num: Number)
    requires num.Decimal? ==> WellFormedFloat(num.f)
    ensures NumberText(num) != "" && All(IsNumberChar, NumberText(num))
    ensures NumberText(num)[0] == '-' || IsDigit(NumberText(num)[0])
  {
    if num.Decimal? && num.f.Scientific? {
      MantissaShape(num.f);
    }
  }

  // ----- reading number texts

  lemma SpanAll(s: string)
    requires All(IsDigit, s)
    ensures Span(IsDigit, s) == |s|
  {
    assert s + "" == s;
    SpanIsToken(IsDigit, s, "");
  }

  lemma ReadsDigits(m: nat, negative: bool)
    ensures ReadMagnitude(negative, Digits(m)) == Some(Integer(if negative then -(m as int) else m))
  {
    SpanAll(Digits(m));
    DigitsValue(m);
    if m != 0 {
      NoLeadingZero(m);
    }
  }

  lemma SignedDigits(m: nat)
    ensures SignedValue(Digits(m)) == Some(m) && SignedValue("-" + Digits(m)) == Some(-(m as int))
  {
    var digits := Digits(m);
    SpanAll(digits);
    DigitsValue(m);
    assert IsDigit(digits[0]);
    assert ("-" + digits)[1..] == digits;
  }

  lemma ReadsInteger(n: int)
    ensures ReadNumber(IntText(n)) == Some(Integer(n))
    ensures SignedValue(IntText(n)) == Some(n)
  {
    var m := if n < 0 then -n else n;
    ReadsDigits(m, n < 0);
    SignedDigits(m);
    assert ("-" + Digits(m))[1..] == Digits(m);
  }

  lemma {:induction false} NoZerosToDrop(digits: string)
    requires digits != "" && digits[0] != '0'
    ensures LeadingZeros(digits) == 0
  {
  }

  lemma TrailingKept(s: string)
    requires s != "" ==> s[|s| - 1] != '0'
    ensures WithoutTrailingZeros(s) == s
  {
  }

  lemma FloatRead(f: Float, scale: int)
    requires f.Scientific? && WellFormedFloat(f)
    ensures FloatOf(f.negative, [f.lead] + f.fraction, scale)
         == Scientific(f.negative, f.lead, f.fraction, scale - 1)
  {
    var digits := [f.lead] + f.fraction;
    NoZerosToDrop(digits);
    assert digits[1..] == f.fraction;
    TrailingKept(f.fraction);
  }

  /** The exponent part of a float's text. */
  function ExponentText(f: Float): string
    requires f.Scientific?
  {
    if f.exponent == 0 then "" else "e" + IntText(f.exponent)
  }

  function FractionText(f: Float): string
    requires f.Scientific?
  {
    if f.fraction == "" then "" else "." + f.fraction
  }

  lemma FloatTextParts(f: Float)
    requires f.Scientific?
    ensures NumberText(Decimal(f))
         == (if f.negative then "-" else "") + ([f.lead] + (FractionText(f) + ExponentText(f)))
  {
    var sign := if f.negative then "-" else "";
    Reassociate(sign, [f.lead], FractionText(f));
    Reassociate(sign, [f.lead] + FractionText(f), ExponentText(f));
    Reassociate([f.lead], FractionText(f), ExponentText(f));
  }

  lemma ReadsExponent(f: Float, scale: nat)
    requires f.Scientific? && WellFormedFloat(f)
    ensures ReadExponent(f.negative, [f.lead] + f.fraction, scale, ExponentText(f))
         == Some(f.(exponent := scale + f.exponent - 1))
  {
    FloatRead(f, scale + f.exponent);
    hide FloatOf;
    hide SignedValue;
    hide WellFormedFloat;
    if f.exponent != 0 {
      assert ExponentText(f)[1..] == IntText(f.exponent);
      ReadsInteger(f.exponent);
    }
  }

  lemma ReadsFraction(f: Float)
    requires f.Scientific? && WellFormedFloat(f)
    ensures ReadFraction(f.negative, [f.lead], FractionText(f) + ExponentText(f)) == Some(f)
  {
    hide ReadExponent;
    var s := FractionText(f) + ExponentText(f);
    ReadsExponent(f, 1);
    if f.fraction != "" {
      Reassociate(".", f.fraction, ExponentText(f));
      assert s[1..] == f.fraction + ExponentText(f);
      SpanIsToken(IsDigit, f.fraction, ExponentText(f));
      assert s[1..1 + |f.fraction|] == f.fraction && s[1 + |f.fraction|..] == ExponentText(f);
    } else {
      assert s == ExponentText(f);
      assert [f.lead] + f.fraction == [f.lead];
    }
  }

  /** A float that does not print like an integer is read back. */
  lemma ReadsFloat(f: Float)
    requires f.Scientific? && WellFormedFloat(f) && !PrintsAsInteger(Decimal(f))
    ensures ReadNumber(NumberText(Decimal(f))) == Some(Decimal(f))
  {
    hide ReadFraction;
    var tail := FractionText(f) + ExponentText(f);
    var body := [f.lead] + tail;
    FloatTextParts(f);
    ReadsFraction(f);
    SpanIsToken(IsDigit, [f.lead], tail);
    assert body[..1] == [f.lead] && body[1..] == tail;
    assert ("-" + body)[1..] == body && "" + body == body;
  }

  lemma BareDigitText(num: Number)
    requires num.Decimal? ==> WellFormedFloat(num.f)
    ensures NumberText(Meaning(num)) == NumberText(num)
  {
    if PrintsAsInteger(num) && num.f.Scientific? {
      var digit := (num.f.lead as int) - ('0' as int);
      OneDigit(digit, num.f.lead);
      assert NumberText(num) == Mantissa(num.f);
    }
  }

  /** A number text is read as what the number means. */
  lemma ReadsMeaning(num: Number)
    requires num.Decimal? ==> WellFormedFloat(num.f)
    ensures ReadNumber(NumberText(num)) == Some(Meaning(num))
  {
    BareDigitText(num);
    if Meaning(num).Integer? {
      ReadsInteger(Meaning(num).n);
    } else {
      ReadsFloat(num.f);
    }
  }

  /** Numbers share a text exactly when they mean the same. */
  lemma NumberTextMeaning(a: Number, b: Number)
    requires a.Decimal? ==> WellFormedFloat(a.f)
    requires b.Decimal? ==> WellFormedFloat(b.f)
    ensures NumberText(a) == NumberText(b) <==> Meaning(a) == Meaning(b)
  {
    ReadsMeaning(a);
    ReadsMeaning(b);
    BareDigitText(a);
    BareDigitText(b);
  }

  // ----- number printers

  /** Canonically, or as a library writes floats out in full. */
  datatype Style = Canonically | Verbatim(show: Float -> string)

  function Shown(style: Style, num: Number): string {
    match style
    case Canonically => NumberText(num)
    case Verbatim(show) =>
      match num
      case Integer(n) => IntText(n)
      case Decimal(f) => show(f)
  }

  predicate NumberShaped(s: string) {
    s != "" && All(IsNumberChar, s) && (s[0] == '-' || IsDigit(s[0]))
  }

  /** Float texts read back as the float, and none looks like an integer. */
  ghost predicate ShowsFloats(show: Float -> string) {
    && (forall f :: WellFormedFloat(f) ==> NumberShaped(show(f)) && ('.' in show(f) || 'e' in show(f)))
    && (forall f, g :: WellFormedFloat(f) && WellFormedFloat(g) && show(f) == show(g) ==> f == g)
  }

  ghost predicate Trusted(style: Style) {
    style.Verbatim? ==> ShowsFloats(style.show)
  }

  predicate LegibleNumber(style: Style, num: Number) {
    (num.Decimal? ==> WellFormedFloat(num.f)) && (style.Canonically? ==> !PrintsAsInteger(num))
  }

  lemma ShownShape(style: Style, num: Number)
    requires Trusted(style) && LegibleNumber(style, num)
    ensures NumberShaped(Shown(style, num))
  {
    if style.Canonically? || num.Integer? {
      NumberTextShape(num);
    }
  }

  /** The float that a text shows, if it is none of an integer. */
  ghost function Unshown(show: Float -> string, text: string): Option<Number> {
    if '.' !in text && 'e' !in text then ReadNumber(text)
    else if exists f :: WellFormedFloat(f) && show(f) == text then
      var f :| WellFormedFloat(f) && show(f) == text;
      Some(Decimal(f))
    else None
  }

  /** How a number in a style is read. */
  ghost function ReaderOf(style: Style): NumberReader {
    match style
    case Canonically => ReadNumber
    case Verbatim(show) => text => Unshown(show, text)
  }

  lemma IntTextMarks(n: int)
    ensures '.' !in IntText(n) && 'e' !in IntText(n)
  {
  }

  /** A legible number is read back in its style. */
  lemma ReadsShown(style: Style, num: Number)
    requires Trusted(style) && LegibleNumber(style, num)
    ensures ReaderOf(style)(Shown(style, num)) == Some(num)
  {
    if style.Canonically? {
      ReadsMeaning(num);
    } else if num.Integer? {
      IntTextMarks(num.n);
      ReadsInteger(num.n);
    }
  }
}
