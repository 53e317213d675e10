/**
 * The walks of `parse_obj` and `parse_arr` in src/parser.rs, one token at
 * a time, and the nesting structure they follow: a successful walk ends
 * at the closing token that matches its opening token, counting brackets
 * and braces alike.
 */
module Walk {
  import opened Results
  import opened JsonTypes
  import opened ParseErrors
  import opened Parser
  import ValueProperties

  /**
   * A `]` inside an object reaches the catch-all arm: as a key it is too
   * short, as a value `parse_value` rejects it.
   */
  lemma ObjRejectsBracket(tokens: seq<string>, first: nat, pos: nat, key: Option<string>, acc: map<string, JsonValue>)
    requires first < pos < |tokens| && tokens[pos] == "]"
    ensures key.None? ==> ObjLoop(ParseValue, tokens, first, pos, key, acc) == Err(Panic(KeyTooShort))
    ensures key.Some? ==> ObjLoop(ParseValue, tokens, first, pos, key, acc) == Err(FloatParse)
  {
    ValueProperties.StructuralTokensAreNotValues(tokens[pos]);
  }

  /** So a `:` or a `}` inside an array is handed to `parse_value`, which rejects it. */
  lemma ArrRejectsColonAndBrace(tokens: seq<string>, first: nat, pos: nat, acc: seq<JsonValue>)
    requires first < pos < |tokens| && (tokens[pos] == ":" || tokens[pos] == "}")
    ensures ArrLoop(ParseValue, tokens, first, pos, acc) == Err(FloatParse)
  {
    ValueProperties.StructuralTokensAreNotValues(tokens[pos]);
    ArrTakesValue(ParseValue, tokens, first, pos, acc);
  }

  // ---------------------------------------------------------------------
  // Matching closing tokens

  /** How a token changes the nesting depth. */
  function Nest(t: string): int {
    if t == "{" || t == "[" then 1 else if t == "}" || t == "]" then -1 else 0
  }

  /** The nesting depth after a run of tokens. */
  function Depth(ts: seq<string>): int {
    if ts == [] then 0 else Depth(ts[..|ts| - 1]) + Nest(ts[|ts| - 1])
  }

  /**
   * `close` is the first token after `open` at which the depth, counted
   * from `open` inclusive, returns to zero: the token matching `open`.
   */
  predicate Closes(tokens: seq<string>, open: nat, close: nat) {
    && open < close < |tokens|
    && Depth(tokens[open..close + 1]) == 0
    && forall k :: open < k <= close ==> Inside(tokens, open, k)
  }

  /** The depth counted from `open` up to (not including) `k` is positive. */
  predicate Inside(tokens: seq<string>, open: nat, k: nat)
    requires open <= k <= |tokens|
  {
    Depth(tokens[open..k]) >= 1
  }

  lemma {:induction false} DepthConcat(a: seq<string>, b: seq<string>)
    ensures Depth(a + b) == Depth(a) + Depth(b)
  {
    if b == [] {
      assert a + b == a;
    } else {
      DepthConcat(a, b[..|b| - 1]);
      assert (a + b)[..|a + b| - 1] == a + b[..|b| - 1];
      assert (a + b)[|a + b| - 1] == b[|b| - 1];
    }
  }

  lemma DepthSplit(tokens: seq<string>, i: nat, j: nat, k: nat)
    requires i <= j <= k <= |tokens|
    ensures Depth(tokens[i..k]) == Depth(tokens[i..j]) + Depth(tokens[j..k])
  {
    assert tokens[i..k] == tokens[i..j] + tokens[j..k];
    DepthConcat(tokens[i..j], tokens[j..k]);
  }

  lemma DepthStep(tokens: seq<string>, i: nat, j: nat)
    requires i <= j < |tokens|
    ensures Depth(tokens[i..j + 1]) == Depth(tokens[i..j]) + Nest(tokens[j])
  {
    assert tokens[i..j + 1][..j - i] == tokens[i..j];
  }

  /** Inside a walk opened at `first`, at depth one, at position `pos`. */
  predicate OpenAt(tokens: seq<string>, first: nat, pos: nat) {
    && first < pos <= |tokens|
    && Depth(tokens[first..pos]) == 1
    && forall k :: first < k <= pos ==> Inside(tokens, first, k)
  }

  /** After a nested structure closes at `close`, the walk resumes at depth one. */
  lemma ResumeAfterNested(tokens: seq<string>, first: nat, pos: nat, close: nat)
    requires OpenAt(tokens, first, pos) && Closes(tokens, pos, close)
    ensures OpenAt(tokens, first, close + 1)
  {
    DepthSplit(tokens, first, pos, close + 1);
    forall k | pos < k <= close + 1
      ensures Inside(tokens, first, k)
    {
      DepthSplit(tokens, first, pos, k);
      if k <= close {
        assert Inside(tokens, pos, k);
      }
    }
  }

  /** After a token that does not nest, the walk stays at depth one. */
  lemma ResumeAfterFlat(tokens: seq<string>, first: nat, pos: nat)
    requires OpenAt(tokens, first, pos) && pos < |tokens| && Nest(tokens[pos]) == 0
    ensures OpenAt(tokens, first, pos + 1)
  {
    DepthStep(tokens, first, pos);
  }

  lemma StartNested(tokens: seq<string>, pos: nat)
    requires pos < |tokens| && Nest(tokens[pos]) == 1
    ensures OpenAt(tokens, pos, pos + 1)
  {
    DepthStep(tokens, pos, pos);
  }

  lemma CloseHere(tokens: seq<string>, first: nat, pos: nat)
    requires OpenAt(tokens, first, pos) && pos < |tokens| && Nest(tokens[pos]) == -1
    ensures Closes(tokens, first, pos)
  {
    DepthStep(tokens, first, pos);
  }

  /** The atom parser refuses both closing tokens, as `parse_value` does. */
  predicate RejectsClosers(atom: AtomParser) {
    atom("}").Err? && atom("]").Err?
  }

  /** A successful walk from `first` ends at the token matching `first`. */
  predicate EndsMatched(tokens: seq<string>, first: nat, r: Result<(nat, JsonValue), ParseError>) {
    r.Ok? ==> Closes(tokens, first, first + r.value.0)
  }

  /** A successful `parse_obj` walk ends at the `}` matching its opening token. */
  lemma {:induction false} ObjLoopCloses(atom: AtomParser, tokens: seq<string>, first: nat, pos: nat, key: Option<string>, acc: map<string, JsonValue>)
    requires RejectsClosers(atom) && OpenAt(tokens, first, pos)
    ensures EndsMatched(tokens, first, ObjLoop(atom, tokens, first, pos, key, acc))
    decreases |tokens| - pos, 3
  {
    if pos >= |tokens| {
      ObjPastEnd(atom, tokens, first, pos, key, acc);
    } else if tokens[pos] == "{" || tokens[pos] == "[" {
      ObjNestedCloses(atom, tokens, first, pos, key, acc);
    } else if tokens[pos] == "}" {
      ObjCloses(atom, tokens, first, pos, key, acc);
      CloseHere(tokens, first, pos);
    } else if tokens[pos] == ":" || tokens[pos] == "," {
      ResumeAfterFlat(tokens, first, pos);
      ObjSkipsSeparators(atom, tokens, first, pos, key, acc);
      ObjLoopCloses(atom, tokens, first, pos + 1, key, acc);
    } else if key.None? {
      ObjKeyCloses(atom, tokens, first, pos, acc);
    } else {
      ObjValueCloses(atom, tokens, first, pos, key.value, acc);
    }
  }

  lemma {:induction false} ObjNestedCloses(atom: AtomParser, tokens: seq<string>, first: nat, pos: nat, key: Option<string>, acc: map<string, JsonValue>)
    requires RejectsClosers(atom) && OpenAt(tokens, first, pos) && pos < |tokens| && (tokens[pos] == "{" || tokens[pos] == "[")
    ensures EndsMatched(tokens, first, ObjLoop(atom, tokens, first, pos, key, acc))
    decreases |tokens| - pos, 2
  {
    var sub := NestedResumes(atom, tokens, first, pos);
    if sub.Ok? && key.Some? {
      var (d, v) := sub.value;
      ObjResumesAfterNested(atom, tokens, first, pos, key.value, acc, d, v);
      ObjLoopCloses(atom, tokens, first, pos + d + 1, None, acc[key.value := v]);
    } else {
      ObjTakesNested(atom, tokens, first, pos, key, acc);
    }
  }

  lemma {:induction false} ObjKeyCloses(atom: AtomParser, tokens: seq<string>, first: nat, pos: nat, acc: map<string, JsonValue>)
    requires RejectsClosers(atom) && OpenAt(tokens, first, pos) && pos < |tokens| && ObjOther(tokens[pos])
    ensures EndsMatched(tokens, first, ObjLoop(atom, tokens, first, pos, None, acc))
    decreases |tokens| - pos, 1
  {
    var t := tokens[pos];
    ObjTakesKey(atom, tokens, first, pos, acc);
    if |t| >= 2 {
      ResumeAfterFlat(tokens, first, pos);
      ObjLoopCloses(atom, tokens, first, pos + 1, Some(t[1..|t| - 1]), acc);
    }
  }

  lemma {:induction false} ObjValueCloses(atom: AtomParser, tokens: seq<string>, first: nat, pos: nat, key: string, acc: map<string, JsonValue>)
    requires RejectsClosers(atom) && OpenAt(tokens, first, pos) && pos < |tokens| && ObjOther(tokens[pos])
    ensures EndsMatched(tokens, first, ObjLoop(atom, tokens, first, pos, Some(key), acc))
    decreases |tokens| - pos, 1
  {
    var v := atom(tokens[pos]);
    ObjTakesValue(atom, tokens, first, pos, key, acc);
    if v.Ok? {
      ResumeAfterFlat(tokens, first, pos);
      ObjLoopCloses(atom, tokens, first, pos + 1, None, acc[key := v.value]);
    }
  }

  /** The nested call at an opening token ends at the token matching it. */
  lemma {:induction false} NestedCloses(atom: AtomParser, tokens: seq<string>, pos: nat) returns (sub: Result<(nat, JsonValue), ParseError>)
    requires RejectsClosers(atom) && pos < |tokens| && (tokens[pos] == "{" || tokens[pos] == "[")
    ensures sub == Nested(atom, tokens, pos)
    ensures sub.Ok? ==> Closes(tokens, pos, pos + sub.value.0)
    decreases |tokens| - pos, 0
  {
    StartNested(tokens, pos);
    if tokens[pos] == "{" {
      ObjLoopCloses(atom, tokens, pos, pos + 1, None, map[]);
    } else {
      ArrLoopCloses(atom, tokens, pos, pos + 1, []);
    }
    sub := Nested(atom, tokens, pos);
  }

  /** After the nested call at `pos`, the enclosing walk resumes at depth one. */
  lemma {:induction false} NestedResumes(atom: AtomParser, tokens: seq<string>, first: nat, pos: nat)
    returns (sub: Result<(nat, JsonValue), ParseError>)
    requires RejectsClosers(atom) && OpenAt(tokens, first, pos) && pos < |tokens| && (tokens[pos] == "{" || tokens[pos] == "[")
    ensures sub == Nested(atom, tokens, pos)
    ensures sub.Ok? ==> OpenAt(tokens, first, pos + sub.value.0 + 1)
    decreases |tokens| - pos, 1
  {
    sub := NestedCloses(atom, tokens, pos);
    if sub.Ok? {
      ResumeAfterNested(tokens, first, pos, pos + sub.value.0);
    }
  }

  /** A successful `parse_arr` walk ends at the `]` matching its opening token. */
  lemma {:induction false} ArrLoopCloses(atom: AtomParser, tokens: seq<string>, first: nat, pos: nat, acc: seq<JsonValue>)
    requires RejectsClosers(atom) && OpenAt(tokens, first, pos)
    ensures EndsMatched(tokens, first, ArrLoop(atom, tokens, first, pos, acc))
    decreases |tokens| - pos, 3
  {
    if pos >= |tokens| {
      ArrPastEnd(atom, tokens, first, pos, acc);
    } else if tokens[pos] == "{" || tokens[pos] == "[" {
      ArrNestedCloses(atom, tokens, first, pos, acc);
    } else if tokens[pos] == "]" {
      ArrCloses(atom, tokens, first, pos, acc);
      CloseHere(tokens, first, pos);
    } else if tokens[pos] == "," {
      ResumeAfterFlat(tokens, first, pos);
      ArrSkipsComma(atom, tokens, first, pos, acc);
      ArrLoopCloses(atom, tokens, first, pos + 1, acc);
    } else {
      ArrValueCloses(atom, tokens, first, pos, acc);
    }
  }

  lemma {:induction false} ArrNestedCloses(atom: AtomParser, tokens: seq<string>, first: nat, pos: nat, acc: seq<JsonValue>)
    requires RejectsClosers(atom) && OpenAt(tokens, first, pos) && pos < |tokens| && (tokens[pos] == "{" || tokens[pos] == "[")
    ensures EndsMatched(tokens, first, ArrLoop(atom, tokens, first, pos, acc))
    decreases |tokens| - pos, 2
  {
    var sub := NestedResumes(atom, tokens, first, pos);
    if sub.Ok? {
      var (d, v) := sub.value;
      ArrResumesAfterNested(atom, tokens, first, pos, acc, d, v);
      ArrLoopCloses(atom, tokens, first, pos + d + 1, acc + [v]);
    } else {
      ArrTakesNested(atom, tokens, first, pos, acc);
    }
  }

  lemma {:induction false} ArrValueCloses(atom: AtomParser, tokens: seq<string>, first: nat, pos: nat, acc: seq<JsonValue>)
    requires RejectsClosers(atom) && OpenAt(tokens, first, pos) && pos < |tokens| && ArrOther(tokens[pos])
    ensures EndsMatched(tokens, first, ArrLoop(atom, tokens, first, pos, acc))
    decreases |tokens| - pos, 1
  {
    var v := atom(tokens[pos]);
    ArrTakesValue(atom, tokens, first, pos, acc);
    if v.Ok? {
      ResumeAfterFlat(tokens, first, pos);
      ArrLoopCloses(atom, tokens, first, pos + 1, acc + [v.value]);
    }
  }

  /** `parse_value` refuses both closing tokens. */
  lemma ParseValueRejectsClosers()
    ensures RejectsClosers(ParseValue)
  {
    ValueProperties.StructuralTokensAreNotValues("}");
    ValueProperties.StructuralTokensAreNotValues("]");
  }

  /**
   * `parse_obj(tokens, pos)` succeeds with an offset `d >= 1` such that
   * `tokens[pos + d]` is the `}` matching `tokens[pos]`; the caller resumes
   * at `pos + d + 1`.
   */
  lemma ObjAtCloses(tokens: seq<string>, pos: nat)
    requires pos < |tokens| && Nest(tokens[pos]) == 1
    ensures var r := ObjAt(tokens, pos);
      r.Ok? ==> r.value.0 >= 1 && tokens[pos + r.value.0] == "}" && Closes(tokens, pos, pos + r.value.0)
  {
    ParseValueRejectsClosers();
    StartNested(tokens, pos);
    ObjLoopCloses(ParseValue, tokens, pos, pos + 1, None, map[]);
  }

  /** The same for `parse_arr` and `]`. */
  lemma ArrAtCloses(tokens: seq<string>, pos: nat)
    requires pos < |tokens| && Nest(tokens[pos]) == 1
    ensures var r := ArrAt(tokens, pos);
      r.Ok? ==> r.value.0 >= 1 && tokens[pos + r.value.0] == "]" && Closes(tokens, pos, pos + r.value.0)
  {
    ParseValueRejectsClosers();
    StartNested(tokens, pos);
    ArrLoopCloses(ParseValue, tokens, pos, pos + 1, []);
  }
}
