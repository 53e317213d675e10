/**
 * The tree builder of src/parser.rs: `parse_value` classifies one atomic
 * token, `parse_obj` and `parse_arr` walk the token list from an opening
 * token to its closing token, and `parse` lexes the text and starts
 * `parse_obj` at token 0.
 *
 * `ObjLoop` and `ArrLoop` state, one token per step, what the two loops
 * compute; the methods `ParseObj` and `ParseArr` are the loops themselves
 * and are proved to compute exactly that.
 */
module Parser {
  import opened Results
  import opened JsonTypes
  import opened NumberSyntax
  import opened ParseErrors
  import Lexer

  /** The character test that picks the integer branch. */
  predicate DigitsAndMinus(s: string) {
    forall i :: 0 <= i < |s| ==> IsDigit(s[i]) || s[i] == '-'
  }

  predicate IsKeyword(s: string) {
    s == "null" || s == "true" || s == "false"
  }

  /**
   * `parse_value`: a leading quote makes a string (first and last character
   * dropped), the three exact keywords make `null`/`true`/`false`, a token
   * made only of digits and `-` is an `i64`, anything else an `f64`.
   */
  function ParseValue(s: string): (r: Result<JsonValue, ParseError>)
    ensures r.Ok? ==> !r.value.Object? && !r.value.Array?
  {
    if s != [] && s[0] == '"' then
      if |s| < 2 then Err(Panic(StringTooShort)) else Ok(String(s[1..|s| - 1]))
    else if s == "null" then Ok(Null)
    else if s == "true" then Ok(Bool(true))
    else if s == "false" then Ok(Bool(false))
    else if !DigitsAndMinus(s) then
      if FloatSyntax(s) then Ok(Number(Float(s))) else Err(FloatParse)
    else
      match ParseI64(s)
      case Some(n) => Ok(Number(Int(n)))
      case None => Err(IntParse)
  }

  /**
   * What `parse_value` makes of a token: never an object or an array; a
   * string exactly for a quoted token, with its contents between the two
   * end characters; `null` and the booleans exactly for the three keywords;
   * an `i64` exactly for a token of digits and `-` that fits; an `f64`
   * (kept as its text) exactly for the remaining tokens in Rust's float
   * syntax. Each failure is the one of the branch it reached: the slice
   * panic for a lone quote, the integer error for a digits-and-`-` token
   * out of `i64` syntax or range, the float error for any other token
   * outside float syntax.
   */
  lemma ParseValueCases(s: string)
    ensures var r := ParseValue(s);
      && (r.Ok? && r.value.String? <==> |s| >= 2 && s[0] == '"')
      && (r.Ok? && r.value.String? ==> s == [s[0]] + r.value.str + [s[|s| - 1]])
      && (r.Ok? && r.value.Null? <==> s == "null")
      && (r.Ok? && r.value.Bool? <==> s == "true" || s == "false")
      && (r.Ok? && r.value.Bool? ==> (r.value.flag <==> s == "true"))
      && (r.Ok? && r.value.Number? && r.value.num.Int? <==> DigitsAndMinus(s) && ParseI64(s).Some?)
      && (r.Ok? && r.value.Number? && r.value.num.Int? ==> ParseI64(s) == Some(r.value.num.whole))
      && (r.Ok? && r.value.Number? && r.value.num.Float?
          <==> (s == [] || s[0] != '"') && !IsKeyword(s) && !DigitsAndMinus(s) && FloatSyntax(s))
      && (r.Ok? && r.value.Number? && r.value.num.Float? ==> r.value.num.text == s)
      && (r.Err? ==> r.error == Panic(StringTooShort) || r.error == IntParse || r.error == FloatParse)
      && (r == Err(Panic(StringTooShort)) <==> s == "\"")
      && (r == Err(IntParse) <==> (s == [] || s[0] != '"') && !IsKeyword(s) && DigitsAndMinus(s) && ParseI64(s).None?)
      && (r == Err(FloatParse) <==> (s == [] || s[0] != '"') && !IsKeyword(s) && !DigitsAndMinus(s) && !FloatSyntax(s))
  {
  }

  /** The key a bare token stands for: its first and last character dropped. */
  function KeyOf(t: string): (k: string)
    requires |t| >= 2
    ensures |k| == |t| - 2 && t == [t[0]] + k + [t[|t| - 1]]
  {
    t[1..|t| - 1]
  }

  /**
   * How the walks turn an atomic token into a value. The walks below take
   * it as a parameter so that what they do with the structure can be
   * stated apart from how atoms are parsed; `parse_obj` and `parse_arr`
   * always use `ParseValue`.
   */
  type AtomParser = string -> Result<JsonValue, ParseError>

  /**
   * The loop of `parse_obj`, from position `pos` with pending `key` and the
   * members `acc` inserted so far; `first` is the opening token. On success
   * it returns the offset from `first` to the closing `}` and the object.
   */
  function ObjLoop(atom: AtomParser, tokens: seq<string>, first: nat, pos: nat, key: Option<string>, acc: map<string, JsonValue>)
    : (r: Result<(nat, JsonValue), ParseError>)
    requires first < pos
    ensures r.Ok? ==> pos <= first + r.value.0 < |tokens| && tokens[first + r.value.0] == "}"
    ensures r.Ok? ==> r.value.1.Object?
    decreases |tokens| - pos
  {
    if pos >= |tokens| then Err(Panic(IndexOutOfBounds))
    else
      var t := tokens[pos];
      if t == "{" || t == "[" then
        var sub :- if t == "{" then ObjLoop(atom, tokens, pos, pos + 1, None, map[])
                   else ArrLoop(atom, tokens, pos, pos + 1, []);
        if key.None? then Err(Panic(NoPendingKey))
        else ObjLoop(atom, tokens, first, pos + sub.0 + 1, None, acc[key.value := sub.1])
      else if t == "}" then Ok((pos - first, Object(acc)))
      else if t == ":" || t == "," then ObjLoop(atom, tokens, first, pos + 1, key, acc)
      else if key.None? then
        if |t| < 2 then Err(Panic(KeyTooShort))
        else ObjLoop(atom, tokens, first, pos + 1, Some(KeyOf(t)), acc)
      else
        var v :- atom(t);
        ObjLoop(atom, tokens, first, pos + 1, None, acc[key.value := v])
  }

  /**
   * The loop of `parse_arr`: elements are appended in token order and only
   * `,` is skipped. On success it returns the offset to the closing `]`.
   */
  function ArrLoop(atom: AtomParser, tokens: seq<string>, first: nat, pos: nat, acc: seq<JsonValue>)
    : (r: Result<(nat, JsonValue), ParseError>)
    requires first < pos
    ensures r.Ok? ==> pos <= first + r.value.0 < |tokens| && tokens[first + r.value.0] == "]"
    ensures r.Ok? ==> r.value.1.Array?
    decreases |tokens| - pos
  {
    if pos >= |tokens| then Err(Panic(IndexOutOfBounds))
    else
      var t := tokens[pos];
      if t == "{" || t == "[" then
        var sub :- if t == "{" then ObjLoop(atom, tokens, pos, pos + 1, None, map[])
                   else ArrLoop(atom, tokens, pos, pos + 1, []);
        ArrLoop(atom, tokens, first, pos + sub.0 + 1, acc + [sub.1])
      else if t == "," then ArrLoop(atom, tokens, first, pos + 1, acc)
      else if t == "]" then Ok((pos - first, Array(acc)))
      else
        var v :- atom(t);
        ArrLoop(atom, tokens, first, pos + 1, acc + [v])
  }

  /** What `parse_obj(tokens, pos)` returns. */
  function ObjAt(tokens: seq<string>, pos: nat): (r: Result<(nat, JsonValue), ParseError>)
    ensures r.Ok? ==> 1 <= r.value.0 && pos + r.value.0 < |tokens| && tokens[pos + r.value.0] == "}"
    ensures r.Ok? ==> r.value.1.Object?
  {
    ObjLoop(ParseValue, tokens, pos, pos + 1, None, map[])
  }

  /** What `parse_arr(tokens, pos)` returns. */
  function ArrAt(tokens: seq<string>, pos: nat): (r: Result<(nat, JsonValue), ParseError>)
    ensures r.Ok? ==> 1 <= r.value.0 && pos + r.value.0 < |tokens| && tokens[pos + r.value.0] == "]"
    ensures r.Ok? ==> r.value.1.Array?
  {
    ArrLoop(ParseValue, tokens, pos, pos + 1, [])
  }

  /** What `parse(s)` returns: the value `parse_obj` builds from token 0. */
  function ParseText(s: string): (r: Result<JsonValue, ParseError>)
    ensures r.Ok? ==> r.value.Object?
  {
    var tokens :- Lexer.Lex(s);
    var sub :- ObjAt(tokens, 0);
    Ok(sub.1)
  }

  // ---------------------------------------------------------------------
  // The walks one token at a time

  /** The tokens `parse_obj` hands to its catch-all arm. */
  predicate ObjOther(t: string) {
    t != "{" && t != "}" && t != "[" && t != ":" && t != ","
  }

  /** The tokens `parse_arr` hands to its catch-all arm. */
  predicate ArrOther(t: string) {
    t != "{" && t != "[" && t != "]" && t != ","
  }

  /** The recursive call at an opening token. */
  function Nested(atom: AtomParser, tokens: seq<string>, pos: nat): Result<(nat, JsonValue), ParseError>
    requires pos < |tokens|
  {
    if tokens[pos] == "{" then ObjLoop(atom, tokens, pos, pos + 1, None, map[])
    else ArrLoop(atom, tokens, pos, pos + 1, [])
  }

  /** Running past the end of the tokens is a failure, not a default. */
  lemma ObjPastEnd(atom: AtomParser, tokens: seq<string>, first: nat, pos: nat, key: Option<string>, acc: map<string, JsonValue>)
    requires first < pos && pos >= |tokens|
    ensures ObjLoop(atom, tokens, first, pos, key, acc) == Err(Panic(IndexOutOfBounds))
  {
  }

  /** `:` and `,` have no effect inside an object. */
  lemma ObjSkipsSeparators(atom: AtomParser, tokens: seq<string>, first: nat, pos: nat, key: Option<string>, acc: map<string, JsonValue>)
    requires first < pos < |tokens| && (tokens[pos] == ":" || tokens[pos] == ",")
    ensures ObjLoop(atom, tokens, first, pos, key, acc) == ObjLoop(atom, tokens, first, pos + 1, key, acc)
  {
  }

  /** With no key pending, any other token becomes the key, minus its first and last character. */
  lemma ObjTakesKey(atom: AtomParser, tokens: seq<string>, first: nat, pos: nat, acc: map<string, JsonValue>)
    requires first < pos < |tokens| && ObjOther(tokens[pos])
    ensures |tokens[pos]| >= 2 ==> (ObjLoop(atom, tokens, first, pos, None, acc)
      == ObjLoop(atom, tokens, first, pos + 1, Some(tokens[pos][1..|tokens[pos]| - 1]), acc))
    ensures |tokens[pos]| < 2 ==> ObjLoop(atom, tokens, first, pos, None, acc) == Err(Panic(KeyTooShort))
  {
  }

  /** With a key pending, any other token is parsed as a value stored under it, and the key is cleared. */
  lemma ObjTakesValue(atom: AtomParser, tokens: seq<string>, first: nat, pos: nat, key: string, acc: map<string, JsonValue>)
    requires first < pos < |tokens| && ObjOther(tokens[pos])
    ensures atom(tokens[pos]).Ok? ==> (ObjLoop(atom, tokens, first, pos, Some(key), acc)
      == ObjLoop(atom, tokens, first, pos + 1, None, acc[key := atom(tokens[pos]).value]))
    ensures atom(tokens[pos]).Err? ==> (ObjLoop(atom, tokens, first, pos, Some(key), acc)
      == Err(atom(tokens[pos]).error))
  {
  }

  /**
   * A nested object or array is stored under the pending key and the walk
   * resumes after its closing token; with no key pending it fails.
   */
  lemma ObjTakesNested(atom: AtomParser, tokens: seq<string>, first: nat, pos: nat, key: Option<string>, acc: map<string, JsonValue>)
    requires first < pos < |tokens| && (tokens[pos] == "{" || tokens[pos] == "[")
    ensures Nested(atom, tokens, pos).Err? ==> ObjLoop(atom, tokens, first, pos, key, acc) == Err(Nested(atom, tokens, pos).error)
    ensures Nested(atom, tokens, pos).Ok? && key.None? ==> ObjLoop(atom, tokens, first, pos, key, acc) == Err(Panic(NoPendingKey))
    ensures Nested(atom, tokens, pos).Ok? && key.Some? ==> (ObjLoop(atom, tokens, first, pos, key, acc)
      == ObjLoop(atom, tokens, first, pos + Nested(atom, tokens, pos).value.0 + 1, None,
                 acc[key.value := Nested(atom, tokens, pos).value.1]))
  {
  }

  /** The successful case of `ObjTakesNested`, named by the nested call's result. */
  lemma ObjResumesAfterNested(atom: AtomParser, tokens: seq<string>, first: nat, pos: nat, key: string, acc: map<string, JsonValue>,
                              d: nat, v: JsonValue)
    requires first < pos < |tokens| && (tokens[pos] == "{" || tokens[pos] == "[") && Nested(atom, tokens, pos) == Ok((d, v))
    ensures ObjLoop(atom, tokens, first, pos, Some(key), acc) == ObjLoop(atom, tokens, first, pos + d + 1, None, acc[key := v])
  {
    ObjTakesNested(atom, tokens, first, pos, Some(key), acc);
  }

  /** `}` ends the object; a key still pending is dropped. */
  lemma ObjCloses(atom: AtomParser, tokens: seq<string>, first: nat, pos: nat, key: Option<string>, acc: map<string, JsonValue>)
    requires first < pos < |tokens| && tokens[pos] == "}"
    ensures ObjLoop(atom, tokens, first, pos, key, acc) == Ok((pos - first, Object(acc)))
  {
  }

  lemma ArrPastEnd(atom: AtomParser, tokens: seq<string>, first: nat, pos: nat, acc: seq<JsonValue>)
    requires first < pos && pos >= |tokens|
    ensures ArrLoop(atom, tokens, first, pos, acc) == Err(Panic(IndexOutOfBounds))
  {
  }

  /** Only `,` is skipped inside an array. */
  lemma ArrSkipsComma(atom: AtomParser, tokens: seq<string>, first: nat, pos: nat, acc: seq<JsonValue>)
    requires first < pos < |tokens| && tokens[pos] == ","
    ensures ArrLoop(atom, tokens, first, pos, acc) == ArrLoop(atom, tokens, first, pos + 1, acc)
  {
  }

  /** Any other token is parsed as an element and appended in order. */
  lemma ArrTakesValue(atom: AtomParser, tokens: seq<string>, first: nat, pos: nat, acc: seq<JsonValue>)
    requires first < pos < |tokens| && ArrOther(tokens[pos])
    ensures atom(tokens[pos]).Ok? ==> (ArrLoop(atom, tokens, first, pos, acc)
      == ArrLoop(atom, tokens, first, pos + 1, acc + [atom(tokens[pos]).value]))
    ensures atom(tokens[pos]).Err? ==> ArrLoop(atom, tokens, first, pos, acc) == Err(atom(tokens[pos]).error)
  {
  }

  /** A nested object or array is appended and the walk resumes after it. */
  lemma ArrTakesNested(atom: AtomParser, tokens: seq<string>, first: nat, pos: nat, acc: seq<JsonValue>)
    requires first < pos < |tokens| && (tokens[pos] == "{" || tokens[pos] == "[")
    ensures Nested(atom, tokens, pos).Err? ==> ArrLoop(atom, tokens, first, pos, acc) == Err(Nested(atom, tokens, pos).error)
    ensures Nested(atom, tokens, pos).Ok? ==> (ArrLoop(atom, tokens, first, pos, acc)
      == ArrLoop(atom, tokens, first, pos + Nested(atom, tokens, pos).value.0 + 1, acc + [Nested(atom, tokens, pos).value.1]))
  {
  }

  /** The successful case of `ArrTakesNested`, named by the nested call's result. */
  lemma ArrResumesAfterNested(atom: AtomParser, tokens: seq<string>, first: nat, pos: nat, acc: seq<JsonValue>, d: nat, v: JsonValue)
    requires first < pos < |tokens| && (tokens[pos] == "{" || tokens[pos] == "[") && Nested(atom, tokens, pos) == Ok((d, v))
    ensures ArrLoop(atom, tokens, first, pos, acc) == ArrLoop(atom, tokens, first, pos + d + 1, acc + [v])
  {
    ArrTakesNested(atom, tokens, first, pos, acc);
  }

  /** `]` ends the array. */
  lemma ArrCloses(atom: AtomParser, tokens: seq<string>, first: nat, pos: nat, acc: seq<JsonValue>)
    requires first < pos < |tokens| && tokens[pos] == "]"
    ensures ArrLoop(atom, tokens, first, pos, acc) == Ok((pos - first, Array(acc)))
  {
  }

  // ---------------------------------------------------------------------
  // The loops themselves

  /** `parse_obj`. */
  method ParseObj(tokens: seq<string>, pos: nat) returns (r: Result<(nat, JsonValue), ParseError>)
    ensures r == ObjAt(tokens, pos)
    decreases |tokens| - pos
  {
    var result: map<string, JsonValue> := map[];
    var key: Option<string> := None;
    var firstPos, p := pos, pos + 1;
    while true
      invariant firstPos < p
      invariant ObjLoop(ParseValue, tokens, firstPos, p, key, result) == ObjAt(tokens, firstPos)
      decreases |tokens| - p
    {
      if p >= |tokens| {
        ObjPastEnd(ParseValue, tokens, firstPos, p, key, result);
        return Err(Panic(IndexOutOfBounds));
      }
      var token := tokens[p];
      if token == "{" || token == "[" {
        var sub;
        if token == "{" {
          sub := ParseObj(tokens, p);
        } else {
          sub := ParseArr(tokens, p);
        }
        assert sub == Nested(ParseValue, tokens, p);
        if sub.Err? || key.None? {
          ObjTakesNested(ParseValue, tokens, firstPos, p, key, result);
          return if sub.Err? then Err(sub.error) else Err(Panic(NoPendingKey));
        }
        ObjResumesAfterNested(ParseValue, tokens, firstPos, p, key.value, result, sub.value.0, sub.value.1);
        result := result[key.value := sub.value.1];
        key := None;
        p := p + sub.value.0;
      } else if token == "}" {
        ObjCloses(ParseValue, tokens, firstPos, p, key, result);
        return Ok((p - firstPos, Object(result)));
      } else if token == ":" || token == "," {
        ObjSkipsSeparators(ParseValue, tokens, firstPos, p, key, result);
      } else if key.None? {
        ObjTakesKey(ParseValue, tokens, firstPos, p, result);
        if |token| < 2 {
          return Err(Panic(KeyTooShort));
        }
        key := Some(KeyOf(token));
      } else {
        ObjTakesValue(ParseValue, tokens, firstPos, p, key.value, result);
        var v := ParseValue(token);
        if v.Err? {
          return Err(v.error);
        }
        result := result[key.value := v.value];
        key := None;
      }
      p := p + 1;
    }
  }

  /** `parse_arr`. */
  method ParseArr(tokens: seq<string>, pos: nat) returns (r: Result<(nat, JsonValue), ParseError>)
    ensures r == ArrAt(tokens, pos)
    decreases |tokens| - pos
  {
    var firstPos, p := pos, pos + 1;
    var result: seq<JsonValue> := [];
    while true
      invariant firstPos < p
      invariant ArrLoop(ParseValue, tokens, firstPos, p, result) == ArrAt(tokens, firstPos)
      decreases |tokens| - p
    {
      if p >= |tokens| {
        ArrPastEnd(ParseValue, tokens, firstPos, p, result);
        return Err(Panic(IndexOutOfBounds));
      }
      var token := tokens[p];
      if token == "{" || token == "[" {
        var sub;
        if token == "{" {
          sub := ParseObj(tokens, p);
        } else {
          sub := ParseArr(tokens, p);
        }
        assert sub == Nested(ParseValue, tokens, p);
        if sub.Err? {
          ArrTakesNested(ParseValue, tokens, firstPos, p, result);
          return Err(sub.error);
        }
        ArrResumesAfterNested(ParseValue, tokens, firstPos, p, result, sub.value.0, sub.value.1);
        result := result + [sub.value.1];
        p := p + sub.value.0;
      } else if token == "," {
        ArrSkipsComma(ParseValue, tokens, firstPos, p, result);
      } else if token == "]" {
        ArrCloses(ParseValue, tokens, firstPos, p, result);
        return Ok((p - firstPos, Array(result)));
      } else {
        ArrTakesValue(ParseValue, tokens, firstPos, p, result);
        var v := ParseValue(token);
        if v.Err? {
          return Err(v.error);
        }
        result := result + [v.value];
      }
      p := p + 1;
    }
  }

  /** `parse`: lex the text, then build the object that starts at token 0. */
  method Parse(s: string) returns (r: Result<JsonValue, ParseError>)
    ensures r == ParseText(s)
  {
    var tokens :- Lexer.Lex(s);
    var sub :- ParseObj(tokens, 0);
    return Ok(sub.1);
  }
}
