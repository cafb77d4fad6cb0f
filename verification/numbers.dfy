/** Reading decimal numbers typed by the user or stored as text:
    `Decimal(text)` and `float(text)` on plain decimal literals, exactly. */
module Numbers {

  import opened Wrappers
  import opened Text

  /** Index of the first `c` in `s`, or `|s|` when there is none. */
  function Find(s: string, c: char): (k: nat)
    ensures k <= |s|
    ensures forall i :: 0 <= i < k ==> s[i] != c
    ensures k < |s| ==> s[k] == c
  {
    if |s| == 0 then 0 else if s[0] == c then 0 else 1 + Find(s[1..], c)
  }

  /** The value of the digits `whole` followed by the fraction digits `frac`. */
  function DecimalValue(whole: string, frac: string): (v: real)
    requires AllDigits(whole) && AllDigits(frac)
    ensures v >= 0.0
  {
    DigitsValue(whole) as real + DigitsValue(frac) as real / Pow10(|frac|) as real
  }

  /** An unsigned literal `digits`, `digits.`, `.digits` or `digits.digits`
      (at least one digit in all). */
  function UnsignedValue(body: string): (r: Option<real>)
    ensures r.Some? ==> r.value >= 0.0
  {
    var k := Find(body, '.');
    var whole := body[..k];
    var frac := if k < |body| then body[k + 1..] else "";
    if |whole| + |frac| == 0 || !AllDigits(whole) || !AllDigits(frac) then None
    else Some(DecimalValue(whole, frac))
  }

  /** `Decimal(s)` (equally `float(s)`) for a plain decimal literal with an
      optional sign and surrounding whitespace; `None` where Python raises. */
  function ParseDecimal(s: string): (r: Option<real>)
    ensures r.Some? ==> Strip(s) != ""
    ensures r.Some? && r.value < 0.0 ==> Strip(s)[0] == '-'
  {
    var t := Strip(s);
    if |t| == 0 then None
    else if t[0] == '-' then
      match UnsignedValue(t[1..])
      case Some(v) => Some(-v)
      case None => None
    else if t[0] == '+' then UnsignedValue(t[1..])
    else UnsignedValue(t)
  }

  /** How the form reads a number: `','` is first replaced by `'.'`. */
  function ParseUserNumber(s: string): (r: Option<real>)
  {
    ParseDecimal(ReplaceChar(s, ',', '.'))
  }

  lemma DigitsHaveNoDot(s: string)
    requires AllDigits(s)
    ensures Find(s, '.') == |s|
  {
  }

  lemma FindAfterDigits(whole: string, rest: string)
    requires AllDigits(whole) && |rest| > 0 && rest[0] == '.'
    ensures Find(whole + rest, '.') == |whole|
  {
    var body := whole + rest;
    assert body[|whole|] == '.';
    assert forall i :: 0 <= i < |whole| ==> body[i] == whole[i];
  }

  /** A literal `whole.frac` of digits has the value its digits denote. */
  lemma UnsignedValueOfParts(whole: string, frac: string)
    requires AllDigits(whole) && AllDigits(frac) && |whole| > 0
    ensures UnsignedValue(whole + "." + frac) == Some(DecimalValue(whole, frac))
  {
    var body := whole + ("." + frac);
    assert body == whole + "." + frac;
    FindAfterDigits(whole, "." + frac);
    assert body[..|whole|] == whole;
    assert body[|whole| + 1..] == frac;
  }

  /** A literal of digits alone is read as that whole number. */
  lemma UnsignedValueOfWhole(whole: string)
    requires AllDigits(whole) && |whole| > 0
    ensures UnsignedValue(whole) == Some(DigitsValue(whole) as real)
  {
    DigitsHaveNoDot(whole);
    assert whole[..|whole|] == whole;
    NoFraction(whole);
  }

  lemma NoFraction(whole: string)
    requires AllDigits(whole)
    ensures DecimalValue(whole, "") == DigitsValue(whole) as real
  {
    assert DigitsValue("") == 0;
    assert Pow10(0) == 1;
  }

  /** A stripped literal without a sign is read as unsigned. */
  lemma ParseUnsigned(t: string)
    requires |t| > 0 && Strip(t) == t && t[0] != '-' && t[0] != '+'
    ensures ParseDecimal(t) == UnsignedValue(t)
  {
  }

  /** Replacing commas does nothing to a text without commas. */
  lemma ReplaceWithoutComma(t: string)
    requires forall i :: 0 <= i < |t| ==> t[i] != ','
    ensures ReplaceChar(t, ',', '.') == t
  {
  }

  /** The two separators are interchangeable in the form: `a,b` and `a.b`
      read as the same number, the value of the digits. */
  lemma CommaIsDecimalSeparator(whole: string, frac: string)
    requires AllDigits(whole) && AllDigits(frac) && |whole| > 0
    ensures ParseUserNumber(whole + "," + frac) == ParseUserNumber(whole + "." + frac)
    ensures ParseUserNumber(whole + "," + frac) == Some(DecimalValue(whole, frac))
  {
    var t := whole + "." + frac;
    assert ReplaceChar(whole + "," + frac, ',', '.') == t;
    assert forall i :: 0 <= i < |t| ==> t[i] != ',' by {
      forall i | 0 <= i < |t|
        ensures t[i] != ','
      {
        if i < |whole| {
          assert IsDigit(whole[i]);
        } else if i > |whole| {
          assert IsDigit(frac[i - |whole| - 1]);
        }
      }
    }
    ReplaceWithoutComma(t);
    assert IsDigit(t[0]);
    assert !IsSpace(t[0]);
    if |frac| > 0 {
      assert t[|t| - 1] == frac[|frac| - 1];
      assert IsDigit(t[|t| - 1]);
    }
    assert !IsSpace(t[|t| - 1]);
    StripKeepsFramed(t);
    UnsignedValueOfParts(whole, frac);
  }

  /** A text that starts with neither a digit nor the point is not a
      number. */
  lemma LeadingLetterRejected(s: string)
    requires |s| > 0 && !IsDigit(s[0]) && s[0] != '.'
    ensures UnsignedValue(s) == None
  {
    var k := Find(s, '.');
    assert k > 0;
    assert s[..k][0] == s[0];
  }

  // Fixed inputs used to exhibit the form's behaviour, one fact each.

  lemma StripConseil()
    ensures Strip("Conseil") == "Conseil"
  {
    StripKeepsFramed("Conseil");
  }

  lemma StripOne()
    ensures Strip("1") == "1"
  {
    StripKeepsFramed("1");
  }

  lemma StripX()
    ensures Strip("x") == "x"
  {
    StripKeepsFramed("x");
  }

  /** A single digit typed in a field reads as that digit's value. */
  lemma DigitReads(c: char)
    requires IsDigit(c)
    ensures ParseUserNumber([c]) == Some(DigitValue(c) as real)
  {
    var t := [c];
    ReplaceWithoutComma(t);
    StripKeepsFramed(t);
    ParseUnsigned(t);
    UnsignedValueOfWhole(t);
    assert t[..0] == [];
  }

  /** A single character that is neither a digit, a separator, a sign nor
      whitespace is not a number. */
  lemma LetterRejected(c: char)
    requires !IsDigit(c) && c != '.' && c != ',' && c != '-' && c != '+' && !IsSpace(c)
    ensures ParseUserNumber([c]) == None
  {
    var t := [c];
    ReplaceWithoutComma(t);
    StripKeepsFramed(t);
    ParseUnsigned(t);
    LeadingLetterRejected(t);
  }

  lemma OneReads()
    ensures ParseUserNumber("1") == Some(1.0)
  {
    DigitReads('1');
    assert "1" == ['1'];
  }

  lemma XRejected()
    ensures ParseUserNumber("x") == None
  {
    LetterRejected('x');
    assert "x" == ['x'];
  }
}
