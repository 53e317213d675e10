/**
 * How `parse_value` of src/parser.rs classifies single tokens.
 */
module ValueProperties {
  import opened Results
  import opened JsonTypes
  import opened NumberSyntax
  import opened ParseErrors
  import opened Parser

  /** Every canonically written `i64` is classified as that integer. */
  lemma IntTokenRoundTrip(n: i64)
    ensures ParseValue(IntToString(n)) == Ok(Number(Int(n)))
  {
    I64RoundTrip(n);
    IntToStringChars(n);
    var s := IntToString(n);
    assert s[0] != '"';
    assert s != "null" && s != "true" && s != "false" by {
      assert IsDigit(s[0]) || s[0] == '-';
    }
  }

  /** A canonically written integer outside `i64` fails instead of wrapping. */
  lemma WideIntTokenFails(n: int)
    requires n < I64_MIN || n > I64_MAX
    ensures ParseValue(IntToString(n)) == Err(IntParse)
  {
    I64RejectsOverflow(n);
    IntToStringChars(n);
    var s := IntToString(n);
    assert s[0] != '"';
    assert s != "null" && s != "true" && s != "false" by {
      assert IsDigit(s[0]) || s[0] == '-';
    }
  }

  /** The three keywords are recognised exactly as written. */
  lemma KeywordsAreExact()
    ensures ParseValue("null") == Ok(Null)
    ensures ParseValue("true") == Ok(Bool(true)) && ParseValue("false") == Ok(Bool(false))
  {
  }

  /** A near miss of a keyword goes to the `f64` branch and fails there. */
  lemma NearKeywordsFail()
    ensures ParseValue("nul") == Err(FloatParse)
    ensures ParseValue("True") == Err(FloatParse)
  {
    ShortNullIsNotFloat();
    CapitalTrueIsNotFloat();
    assert !DigitsAndMinus("nul") by { assert !IsDigit("nul"[0]); }
    assert !DigitsAndMinus("True") by { assert !IsDigit("True"[0]); }
  }

  /**
   * Text with a character other than a digit or `-` is never an `Int`:
   * `3.0`, `1e3` and `+5` are all `Float`s.
   */
  lemma NonIntegerTextIsFloat()
    ensures ParseValue("3.0") == Ok(Number(Float("3.0")))
    ensures ParseValue("1e3") == Ok(Number(Float("1e3")))
    ensures ParseValue("+5") == Ok(Number(Float("+5")))
  {
    FractionIsFloat();
    ExponentIsFloat();
    PlusSignIsFloat();
    assert !DigitsAndMinus("3.0") by { assert !IsDigit("3.0"[1]); }
    assert !DigitsAndMinus("1e3") by { assert !IsDigit("1e3"[1]); }
    assert !DigitsAndMinus("+5") by { assert !IsDigit("+5"[0]); }
  }

  /** The integer branch fails on texts `i64` parsing rejects. */
  lemma MalformedIntTokens()
    ensures ParseValue("-") == Err(IntParse)
    ensures ParseValue("1-2") == Err(IntParse)
    ensures ParseValue("") == Err(IntParse)
  {
    assert DigitsAndMinus("1-2") by { assert IsDigit('1') && IsDigit('2'); }
    assert !AllDigits("1-2") by { assert !IsDigit("1-2"[1]); }
  }

  /** None of the six structural tokens is a value. */
  lemma StructuralTokensAreNotValues(t: string)
    requires t in ["{", "}", "[", "]", ":", ","]
    ensures ParseValue(t) == Err(FloatParse)
  {
    assert !DigitsAndMinus(t) by { assert !IsDigit(t[0]) && t[0] != '-'; }
    assert Lower(t) == t;
    assert IndexOf(t, 'e') == 1 && IndexOf(t, '.') == 1;
    assert !AllDigits(t) by { assert !IsDigit(t[0]); }
  }
}
