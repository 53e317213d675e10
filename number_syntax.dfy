/**
 * The two numeric parsers `parse_value` calls through `str::parse`:
 * `i64::from_str` and `f64::from_str` of the Rust standard library, as
 * their documented input grammars. The `f64` value itself is not modelled;
 * only whether the text is accepted.
 */
module NumberSyntax {
  import opened Results
  import opened JsonTypes

  predicate IsDigit(c: char) {
    '0' <= c <= '9'
  }

  predicate AllDigits(s: string) {
    forall i :: 0 <= i < |s| ==> IsDigit(s[i])
  }

  /** The value of a run of decimal digits, most significant first. */
  function DigitsValue(s: string): (n: nat)
    requires AllDigits(s)
  {
    if s == [] then 0 else DigitsValue(s[..|s| - 1]) * 10 + (s[|s| - 1] - '0') as int
  }

  /** The text after an optional leading `+` or `-`. */
  function Unsigned(s: string): (u: string)
    ensures |u| == |s| || |u| == |s| - 1
  {
    if s != [] && (s[0] == '+' || s[0] == '-') then s[1..] else s
  }

  /** The integer that an optional sign followed by digits denotes. */
  function SignedValue(s: string): int
    requires AllDigits(Unsigned(s))
  {
    if s != [] && s[0] == '-' then -(DigitsValue(Unsigned(s)) as int) else DigitsValue(Unsigned(s))
  }

  /**
   * `i64::from_str`: an optional `+` or `-`, then at least one ASCII digit;
   * the value must fit in 64 signed bits. Leading zeros and `-0` are
   * accepted.
   */
  function ParseI64(s: string): (r: Option<i64>)
    ensures r.Some? <==> Unsigned(s) != [] && AllDigits(Unsigned(s)) && I64_MIN <= SignedValue(s) <= I64_MAX
    ensures r.Some? ==> r.value as int == SignedValue(s)
  {
    if s == [] then None
    else if (s[0] == '+' || s[0] == '-') && |s| == 1 then None
    else
      var digits := if s[0] == '+' || s[0] == '-' then s[1..] else s;
      if !AllDigits(digits) then None
      else
        var v: int := if s[0] == '-' then -(DigitsValue(digits) as int) else DigitsValue(digits);
        if I64_MIN <= v <= I64_MAX then Some(v) else None
  }

  /** Leading zeros and a negative zero are accepted; a lone sign is not. */
  lemma SignAndZeros()
    ensures ParseI64("007") == Some(7) && ParseI64("-0") == Some(0) && ParseI64("+12") == Some(12)
    ensures ParseI64("-") == None && ParseI64("+") == None && ParseI64("") == None
  {
    assert "0"[..0] == "" && DigitsValue("0") == 0;
    assert "00"[..1] == "0" && DigitsValue("00") == 0;
    assert "007"[..2] == "00" && DigitsValue("007") == 7;
    assert "12"[..1] == "1" && DigitsValue("1") == 1 && DigitsValue("12") == 12;
    assert Unsigned("007") == "007" && Unsigned("-0") == "0" && Unsigned("+12") == "12";
  }

  /** ASCII lower-casing, the only case folding the float grammar needs. */
  function Lower(s: string): (r: string)
    ensures |r| == |s|
  {
    if s == [] then []
    else [if 'A' <= s[0] <= 'Z' then (s[0] as int + 32) as char else s[0]] + Lower(s[1..])
  }

  /** The index of the first `c` in `s`, or `|s|` when there is none. */
  function IndexOf(s: string, c: char): (i: nat)
    ensures i <= |s|
    ensures i < |s| ==> s[i] == c
    ensures forall k :: 0 <= k < i ==> s[k] != c
  {
    if s == [] then 0 else if s[0] == c then 0 else 1 + IndexOf(s[1..], c)
  }

  /** `Digit+ | Digit+ '.' Digit* | Digit* '.' Digit+`. */
  predicate MantissaSyntax(m: string) {
    var dot := IndexOf(m, '.');
    if dot == |m| then m != [] && AllDigits(m)
    else AllDigits(m[..dot]) && AllDigits(m[dot + 1..]) && |m| >= 2
  }

  /** `'e' Sign? Digit+`, without its `e`. */
  predicate ExponentSyntax(x: string) {
    var digits := if x != [] && (x[0] == '+' || x[0] == '-') then x[1..] else x;
    digits != [] && AllDigits(digits)
  }

  /**
   * `f64::from_str` accepts exactly the strings whose ASCII lower-casing
   * matches `Sign? ('inf' | 'infinity' | 'nan' | Mantissa Exp?)`.
   */
  predicate FloatSyntax(s: string) {
    var body := Lower(if s != [] && (s[0] == '+' || s[0] == '-') then s[1..] else s);
    var e := IndexOf(body, 'e');
    || body == "inf" || body == "infinity" || body == "nan"
    || (MantissaSyntax(body[..e]) && (e == |body| || ExponentSyntax(body[e + 1..])))
  }

  /** A near miss of the JSON keyword `null` is not a float: `nul`. */
  lemma ShortNullIsNotFloat()
    ensures !FloatSyntax("nul")
  {
    assert Lower("nul") == "nul";
    assert IndexOf("nul", 'e') == 3 && IndexOf("nul", '.') == 3;
    assert !IsDigit("nul"[0]);
  }

  /** Nor is a capitalised keyword, even though `inf` and `nan` ignore case: `True`. */
  lemma CapitalTrueIsNotFloat()
    ensures !FloatSyntax("True")
  {
    assert Lower("True") == "true";
    assert IndexOf("true", 'e') == 3 && "true"[..3] == "tru";
    assert IndexOf("tru", '.') == 3 && !IsDigit("tru"[0]);
  }

  /** A fraction is float syntax: `3.0`. */
  lemma FractionIsFloat()
    ensures FloatSyntax("3.0")
  {
    assert Lower("3.0") == "3.0";
    assert IndexOf("3.0", 'e') == 3 && "3.0"[..3] == "3.0";
    assert IndexOf("3.0", '.') == 1 && "3.0"[..1] == "3" && "3.0"[2..] == "0";
  }

  /** So is an exponent without a fraction: `1e3`. */
  lemma ExponentIsFloat()
    ensures FloatSyntax("1e3")
  {
    assert Lower("1e3") == "1e3";
    assert IndexOf("1e3", 'e') == 1 && "1e3"[..1] == "1";
    assert IndexOf("1", '.') == 1 && "1e3"[2..] == "3";
  }

  /** And a leading `+`: `+5`. */
  lemma PlusSignIsFloat()
    ensures FloatSyntax("+5")
  {
    assert "+5"[1..] == "5" && Lower("5") == "5";
    assert IndexOf("5", 'e') == 1 && "5"[..1] == "5";
    assert IndexOf("5", '.') == 1;
  }

  /** Canonical decimal rendering of a natural number. */
  function NatToDigits(n: nat): (s: string)
    ensures s != [] && AllDigits(s)
  {
    if n < 10 then ['0' + n as char] else NatToDigits(n / 10) + ['0' + (n % 10) as char]
  }

  /** Canonical decimal rendering of an integer, `-` for negatives. */
  function IntToString(n: int): (s: string) {
    if n < 0 then "-" + NatToDigits(-n) else NatToDigits(n)
  }

  lemma {:induction false} DigitsRoundTrip(n: nat)
    ensures DigitsValue(NatToDigits(n)) == n
  {
    if n >= 10 {
      var s := NatToDigits(n);
      DigitsRoundTrip(n / 10);
      assert s[..|s| - 1] == NatToDigits(n / 10);
    }
  }

  /** `i64::from_str` inverts the canonical rendering of every `i64`. */
  lemma I64RoundTrip(n: i64)
    ensures ParseI64(IntToString(n)) == Some(n)
  {
    var s := IntToString(n);
    if n < 0 {
      var m: nat := -(n as int);
      DigitsRoundTrip(m);
      assert s[0] == '-' && |s| > 1;
      assert s[1..] == NatToDigits(m);
    } else {
      DigitsRoundTrip(n);
      assert s == NatToDigits(n);
      assert IsDigit(s[0]);
    }
  }

  /** The rendering of an integer uses only ASCII digits and `-`. */
  lemma IntToStringChars(n: int)
    ensures IntToString(n) != []
    ensures forall i :: 0 <= i < |IntToString(n)| ==> IsDigit(IntToString(n)[i]) || IntToString(n)[i] == '-'
  {
  }

  /** Out-of-range integers are rejected rather than wrapped. */
  lemma I64RejectsOverflow(n: int)
    requires n > I64_MAX || n < I64_MIN
    ensures ParseI64(IntToString(n)) == None
  {
    var s := IntToString(n);
    if n < 0 {
      var m: nat := -n;
      DigitsRoundTrip(m);
      assert s[0] == '-' && |s| > 1;
      assert s[1..] == NatToDigits(m);
    } else {
      DigitsRoundTrip(n);
      assert s == NatToDigits(n);
      assert IsDigit(s[0]);
    }
  }
}
