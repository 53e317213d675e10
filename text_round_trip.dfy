/**
 * The whole of `parse` on written text: a rendered object, written out as
 * one string, lexes back to its own tokens and parses back to its value,
 * provided no string or key holds a quote or ends in a backslash (the
 * lexer knows no escapes other than a backslash before a quote).
 */
module TextRoundTrip {
  import opened Results
  import opened JsonTypes
  import opened NumberSyntax
  import opened Lexer
  import opened Parser
  import opened RoundTrip

  /** Text the lexer keeps as it is: no quote, no trailing backslash. */
  predicate PlainText(s: string) {
    QuoteFree(s) && !EscapedEnd(s)
  }

  /** Every string, key and float literal of the document is plain text. */
  predicate Plain(d: Doc) {
    match d
    case Str(s) => PlainText(s)
    case FloatLit(t) => IsBareToken(t) && PlainText(t)
    case Obj(ms) => MembersPlain(ms)
    case Arr(ds) => ElementsPlain(ds)
    case _ => true
  }

  predicate ElementsPlain(ds: seq<Doc>) {
    ds == [] || (Plain(ds[0]) && ElementsPlain(ds[1..]))
  }

  predicate MembersPlain(ms: seq<Member>) {
    ms == [] || (PlainText(ms[0].key) && Plain(ms[0].doc) && MembersPlain(ms[1..]))
  }

  /** Writable except for the rule on the first token. */
  predicate Flowing(ts: seq<string>) {
    (forall i {:trigger WritableToken(ts[i])} :: 0 <= i < |ts| ==> WritableToken(ts[i])) && Separated(ts)
  }

  lemma DelimIsNotBare(t: string)
    requires IsDelimToken(t)
    ensures !IsBareToken(t)
  {
    assert IsDelimiter(t[0]);
  }

  /** Two flowing lists join into one when a bare token never meets a non-delimiter. */
  lemma JoinFlowing(a: seq<string>, b: seq<string>)
    requires Flowing(a) && Flowing(b)
    requires b != [] && IsBareToken(b[0]) ==> a != [] && IsDelimToken(a[|a| - 1])
    ensures Flowing(a + b)
  {
    var ab := a + b;
    forall i | 0 <= i < |ab|
      ensures WritableToken(ab[i])
    {
      if i < |a| { assert ab[i] == a[i]; } else { assert ab[i] == b[i - |a|]; }
    }
    forall i | 0 < i < |ab| && IsBareToken(ab[i])
      ensures IsDelimToken(ab[i - 1])
    {
      if i < |a| {
        assert ab[i] == a[i] && ab[i - 1] == a[i - 1];
      } else if i == |a| {
        assert ab[i] == b[0] && ab[i - 1] == a[|a| - 1];
      } else {
        assert ab[i] == b[i - |a|] && ab[i - 1] == b[i - 1 - |a|];
      }
    }
  }

  lemma DelimFlows(t: string)
    requires IsDelimToken(t)
    ensures Flowing([t])
  {
    assert [t][0] == t;
  }

  /** Every leaf token can be written and read back. */
  lemma LeafWritable(d: Doc)
    requires !IsContainer(d) && Plain(d)
    ensures WritableToken(LeafToken(d))
  {
    match d
    case Str(s) =>
      var q := Quote(s);
      assert Content(q) == s;
    case IntLit(n) =>
      var t := IntToString(n);
      IntToStringChars(n);
      assert IsBareToken(t);
      assert QuoteFree(t);
      assert !EscapedEnd(t);
    case FloatLit(t) =>
    case BoolLit(b) =>
      var t := if b then "true" else "false";
      assert IsBareToken(t) && QuoteFree(t);
    case NullLit =>
      assert IsBareToken("null") && QuoteFree("null");
  }

  /**
   * The tokens of a plain document flow; those of a container open and
   * close with a delimiter.
   */
  lemma {:induction false} RenderFlows(d: Doc)
    requires Plain(d)
    ensures Flowing(Render(d)) && Render(d) != []
    ensures IsContainer(d) ==> IsDelimToken(Render(d)[0])
    decreases d, 1
  {
    match d
    case Obj(ms) =>
      MembersFlow(ms);
      DelimFlows("{");
      DelimFlows("}");
      JoinFlowing(["{"], RenderMembers(ms));
      JoinFlowing(["{"] + RenderMembers(ms), ["}"]);
    case Arr(ds) =>
      ElementsFlow(ds);
      DelimFlows("[");
      DelimFlows("]");
      JoinFlowing(["["], RenderElements(ds));
      JoinFlowing(["["] + RenderElements(ds), ["]"]);
    case _ =>
      LeafWritable(d);
      assert Render(d) == [LeafToken(d)];
  }

  lemma {:induction false} ElementsFlow(ds: seq<Doc>)
    requires ElementsPlain(ds)
    ensures Flowing(RenderElements(ds))
    decreases ds, 0
  {
    if ds != [] {
      RenderFlows(ds[0]);
      if |ds| > 1 {
        ElementsFlow(ds[1..]);
        DelimFlows(",");
        JoinFlowing([","], RenderElements(ds[1..]));
        DelimIsNotBare(",");
        JoinFlowing(Render(ds[0]), [","] + RenderElements(ds[1..]));
      } else {
        assert RenderElements(ds) == Render(ds[0]) + [];
        assert Render(ds[0]) + [] == Render(ds[0]);
      }
    }
  }

  lemma {:induction false} MembersFlow(ms: seq<Member>)
    requires MembersPlain(ms)
    ensures Flowing(RenderMembers(ms))
    decreases ms, 0
  {
    if ms != [] {
      var m := ms[0];
      RenderFlows(m.doc);
      var k := Quote(m.key);
      assert Content(k) == m.key;
      DelimFlows(":");
      JoinFlowing([k], [":"]);
      assert [k] + [":"] == [k, ":"];
      JoinFlowing([k, ":"], Render(m.doc));
      var head := [k, ":"] + Render(m.doc);
      if |ms| > 1 {
        MembersFlow(ms[1..]);
        DelimFlows(",");
        JoinFlowing([","], RenderMembers(ms[1..]));
        DelimIsNotBare(",");
        JoinFlowing(head, [","] + RenderMembers(ms[1..]));
      } else {
        assert RenderMembers(ms) == head + [];
        assert head + [] == head;
      }
    }
  }

  /** A plain container writes out as text the lexer gives back token for token. */
  lemma RenderWritable(d: Doc)
    requires Plain(d) && IsContainer(d)
    ensures Writable(Render(d))
  {
    RenderFlows(d);
    DelimIsNotBare(Render(d)[0]);
  }

  /**
   * `parse` inverts writing: the text of a plain, well-formed object
   * parses back to the object's value.
   */
  lemma ParseRoundTrip(d: Doc)
    requires WellFormed(d) && Plain(d) && d.Obj?
    ensures ParseText(Concat(Render(d))) == Ok(Value(d))
  {
    var tokens := Render(d);
    RenderWritable(d);
    LexWritten(tokens);
    HoldsSuffix(tokens, 0);
    assert tokens[0..] == tokens;
    ObjAtReadsRendered(d, tokens, 0);
  }

  /** `{"a": "x\"y"}`: a string holding an escaped quote. */
  const EscapedText: string := "{\"a\": \"x\\\"y\"}"

  /** Its tokens: the string token is kept whole, backslash included. */
  const EscapedTokens: seq<string> := ["{", "\"a\"", ":", "\"x\\\"y\"", "}"]

  lemma EscapedTextSplits()
    ensures Split(EscapedText) == ["{", "a", ": ", "x\\", "y", "}"]
  {
    var frags := ["{", "a", ": ", "x\\", "y", "}"];
    assert frags[5..] == ["}"] && Join(frags[5..]) == "}";
    assert Join(frags[4..]) == "y\"}";
    assert Join(frags[3..]) == "x\\\"y\"}";
    assert Join(frags[2..]) == ": \"x\\\"y\"}";
    assert Join(frags[1..]) == "a\": \"x\\\"y\"}";
    assert Join(frags) == EscapedText;
    SplitJoin(frags);
  }

  lemma EscapedTextOutside()
    ensures LexOutside("{") == Ok(["{"]) && LexOutside(": ") == Ok([":"]) && LexOutside("}") == Ok(["}"])
  {
    assert "{"[0] == '{' && "{"[1..] == [] && [] + ["{"] == ["{"];
    assert OutsideFold([], ["{"], true) == Ok(["{"]);
    assert OutsideFold("{", [], false) == Ok(["{"]);
    assert "}"[0] == '}' && "}"[1..] == [] && [] + ["}"] == ["}"];
    assert OutsideFold([], ["}"], true) == Ok(["}"]);
    assert OutsideFold("}", [], false) == Ok(["}"]);
    assert ": "[0] == ':' && ": "[1..] == " " && [] + [":"] == [":"];
    assert " "[0] == ' ' && " "[1..] == [] && IsWhitespace(' ');
    assert OutsideFold([], [":"], true) == Ok([":"]);
    assert OutsideFold(" ", [":"], true) == Ok([":"]);
    assert OutsideFold(": ", [], false) == Ok([":"]);
  }

  /** The lexer's states after each fragment of the example. */
  function EscapedStates(): seq<LexState> {
    [ Start,
      LexState(["{"], "", false),
      LexState(["{", "\"a\""], "", true),
      LexState(["{", "\"a\"", ":"], "", false),
      LexState(["{", "\"a\"", ":"], "x\\\"", false),
      LexState(["{", "\"a\"", ":", "\"x\\\"y\""], "", true),
      LexState(EscapedTokens, "", false) ]
  }

  /** The steps over the three fragments outside quotes. */
  lemma EscapedTextOutsideSteps()
    ensures var st := EscapedStates();
      Step(st[0], "{") == Ok(st[1]) && Step(st[2], ": ") == Ok(st[3]) && Step(st[5], "}") == Ok(st[6])
  {
    EscapedTextOutside();
    assert "" + "{" == "{" && [] + ["{"] == ["{"];
    assert "" + ": " == ": " && ["{", "\"a\""] + [":"] == ["{", "\"a\"", ":"];
    assert "" + "}" == "}" && ["{", "\"a\"", ":", "\"x\\\"y\""] + ["}"] == EscapedTokens;
  }

  /** The steps over the fragments inside quotes, the escaped one glued to the next. */
  lemma EscapedTextInsideSteps()
    ensures var st := EscapedStates();
      Step(st[1], "a") == Ok(st[2]) && Step(st[3], "x\\") == Ok(st[4]) && Step(st[4], "y") == Ok(st[5])
  {
    assert Quote("a") == "\"a\"" by { assert |Quote("a")| == 3; }
    assert Quote("x\\\"y") == "\"x\\\"y\"" by { assert |Quote("x\\\"y")| == 6; }
    assert "" + "a" == "a" && ["{"] + [Quote("a")] == ["{", "\"a\""];
    assert "" + "x\\" + "\"" == "x\\\"" && EscapedEnd("x\\");
    assert "x\\\"" + "y" == "x\\\"y" && ["{", "\"a\"", ":"] + [Quote("x\\\"y")] == ["{", "\"a\"", ":", "\"x\\\"y\""];
  }

  lemma EscapedTextLexes()
    ensures Lex(EscapedText) == Ok(EscapedTokens)
  {
    var frags := ["{", "a", ": ", "x\\", "y", "}"];
    EscapedTextSplits();
    EscapedTextOutsideSteps();
    EscapedTextInsideSteps();
    var st := EscapedStates();
    assert Fold(frags[6..], st[6]) == Ok(st[6]);
    assert Fold(frags[5..], st[5]) == Ok(st[6]);
    assert Fold(frags[4..], st[4]) == Ok(st[6]);
    assert Fold(frags[3..], st[3]) == Ok(st[6]);
    assert Fold(frags[2..], st[2]) == Ok(st[6]);
    assert Fold(frags[1..], st[1]) == Ok(st[6]);
    assert Fold(frags, st[0]) == Ok(st[6]);
  }

  lemma EscapedTokensParse()
    ensures ObjAt(EscapedTokens, 0) == Ok((4, Object(map["a" := String("x\\\"y")])))
  {
    var tokens := EscapedTokens;
    var v := String("x\\\"y");
    var m := map["a" := v];
    assert tokens[3][0] == '"' && |tokens[3]| == 6 && tokens[3][1..5] == "x\\\"y";
    assert ParseValue(tokens[3]) == Ok(v);
    assert ObjLoop(ParseValue, tokens, 0, 4, None, m) == Ok((4, Object(m)));
    assert ObjLoop(ParseValue, tokens, 0, 3, Some("a"), map[]) == Ok((4, Object(m)));
    assert ObjLoop(ParseValue, tokens, 0, 2, Some("a"), map[]) == Ok((4, Object(m)));
    assert KeyOf(tokens[1]) == "a";
    assert ObjLoop(ParseValue, tokens, 0, 1, None, map[]) == Ok((4, Object(m)));
  }

  /**
   * An escaped quote inside a string: `{"a": "x\"y"}` lexes to five tokens,
   * the string token among them whole, and the value keeps the backslash;
   * the escape is not decoded.
   */
  lemma EscapedQuoteKept()
    ensures Lex(EscapedText) == Ok(EscapedTokens)
    ensures ParseText(EscapedText) == Ok(Object(map["a" := String("x\\\"y")]))
  {
    EscapedTextLexes();
    EscapedTokensParse();
  }
}
