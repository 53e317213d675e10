/**
 * The lexer inside `parse` (src/parser.rs): the text is split on `"`, and a
 * fold over the fragments turns every fragment outside quotes into
 * delimiter and bare tokens and every fragment inside quotes into one
 * quoted token. A fragment ending in a backslash is glued to the next one.
 */
module Lexer {
  import opened Results
  import opened ParseErrors

  /** Rust's `char::is_whitespace`: the Unicode `White_Space` property. */
  predicate IsWhitespace(c: char)
    ensures IsWhitespace(c) ==> c != '"' && !IsDelimiter(c)
  {
    var n := c as int;
    || 0x09 <= n <= 0x0D || n == 0x20 || n == 0x85 || n == 0xA0 || n == 0x1680
    || 0x2000 <= n <= 0x200A || n == 0x2028 || n == 0x2029 || n == 0x202F
    || n == 0x205F || n == 0x3000
  }

  /** The six characters that always form a token of their own. */
  predicate IsDelimiter(c: char) {
    c == '{' || c == '}' || c == '[' || c == ']' || c == ':' || c == ','
  }

  // ---------------------------------------------------------------------
  // Splitting on quotes

  /** `str::split('"')`: the fragments between quotes; never empty. */
  function Split(s: string): (r: seq<string>)
    ensures |r| >= 1
  {
    if s == [] then [""]
    else
      var rest := Split(s[1..]);
      if s[0] == '"' then [""] + rest else [[s[0]] + rest[0]] + rest[1..]
  }

  /** Re-inserts one quote between consecutive fragments. */
  function Join(fs: seq<string>): string
    requires |fs| >= 1
  {
    if |fs| == 1 then fs[0] else fs[0] + "\"" + Join(fs[1..])
  }

  predicate QuoteFree(s: string) {
    forall i :: 0 <= i < |s| ==> s[i] != '"'
  }

  /** Splitting loses nothing: the quotes come back by joining. */
  lemma {:induction false} JoinSplit(s: string)
    ensures Join(Split(s)) == s
    ensures forall i :: 0 <= i < |Split(s)| ==> QuoteFree(Split(s)[i])
  {
    if s != [] {
      JoinSplit(s[1..]);
      var rest := Split(s[1..]);
      if s[0] != '"' {
        if |rest| == 1 {
          assert Join(Split(s)) == [s[0]] + rest[0];
        } else {
          assert Split(s)[1..] == rest[1..];
        }
      }
    }
  }

  /** Joining quote-free fragments and splitting again gives them back. */
  lemma {:induction false} SplitJoin(fs: seq<string>)
    requires |fs| >= 1
    requires forall i :: 0 <= i < |fs| ==> QuoteFree(fs[i])
    ensures Split(Join(fs)) == fs
  {
    if |fs| == 1 {
      SplitQuoteFree(fs[0]);
    } else {
      SplitJoin(fs[1..]);
      SplitAtQuote(fs[0], Join(fs[1..]));
    }
  }

  lemma {:induction false} SplitQuoteFree(w: string)
    requires QuoteFree(w)
    ensures Split(w) == [w]
  {
    if w != [] {
      SplitQuoteFree(w[1..]);
      assert w == [w[0]] + w[1..];
    }
  }

  /** The text before the first quote is the first fragment. */
  lemma {:induction false} SplitAtQuote(w: string, j: string)
    requires QuoteFree(w)
    ensures Split(w + "\"" + j) == [w] + Split(j)
  {
    var s := w + "\"" + j;
    if w == [] {
      assert s[0] == '"' && s[1..] == j;
    } else {
      SplitAtQuote(w[1..], j);
      assert s[0] == w[0] && s[1..] == w[1..] + "\"" + j;
      assert w == [w[0]] + w[1..];
    }
  }

  // ---------------------------------------------------------------------
  // Token shapes

  predicate IsDelimToken(t: string) {
    |t| == 1 && IsDelimiter(t[0])
  }

  /** A run of characters that are neither whitespace nor delimiters. */
  predicate IsBareToken(t: string) {
    t != [] && forall i :: 0 <= i < |t| ==> !IsWhitespace(t[i]) && !IsDelimiter(t[i])
  }

  /** A token that begins and ends with a quote. */
  predicate IsQuotedToken(t: string) {
    |t| >= 2 && t[0] == '"' && t[|t| - 1] == '"'
  }

  /** What the fold over an outside fragment may emit. */
  predicate Shaped(ts: seq<string>) {
    forall i :: 0 <= i < |ts| ==> IsDelimToken(ts[i]) || IsBareToken(ts[i])
  }

  /** Bare tokens are maximal: no two of them are adjacent. */
  predicate NoAdjacentBare(ts: seq<string>) {
    forall i :: 0 < i < |ts| ==> !IsBareToken(ts[i - 1]) || !IsBareToken(ts[i])
  }

  /** The tokens written one after the other. */
  function Concat(ts: seq<string>): string {
    if ts == [] then [] else ts[0] + Concat(ts[1..])
  }

  /** The characters of `s` that are not whitespace, in order. */
  function Solid(s: string): (r: string)
    ensures forall i :: 0 <= i < |r| ==> !IsWhitespace(r[i])
  {
    if s == [] then [] else (if IsWhitespace(s[0]) then [] else [s[0]]) + Solid(s[1..])
  }

  /** The first non-whitespace character, if any. */
  function FirstSolid(s: string): Option<char> {
    if s == [] then None else if IsWhitespace(s[0]) then FirstSolid(s[1..]) else Some(s[0])
  }

  // ---------------------------------------------------------------------
  // The fold over a fragment outside quotes

  /**
   * One step per character: whitespace is dropped, a delimiter is pushed as
   * its own token and sets `splitter`; any other character starts a new
   * token after a delimiter or extends the last token otherwise, which
   * panics when there is no token yet.
   */
  function OutsideFold(cs: string, acc: seq<string>, splitter: bool): (r: Result<seq<string>, ParseError>)
    ensures r.Err? ==> r == Err(Panic(NoCurrentToken))
    ensures acc != [] ==> r.Ok?
    ensures r.Ok? ==> |acc| <= |r.value|
  {
    if cs == [] then Ok(acc)
    else
      var c := cs[0];
      if IsWhitespace(c) then OutsideFold(cs[1..], acc, splitter)
      else if IsDelimiter(c) then OutsideFold(cs[1..], acc + [[c]], true)
      else if splitter then OutsideFold(cs[1..], acc + [[c]], false)
      else if acc == [] then Err(Panic(NoCurrentToken))
      else OutsideFold(cs[1..], acc[..|acc| - 1] + [acc[|acc| - 1] + [c]], false)
  }

  /** The tokens of one outside fragment; the inner fold starts empty. */
  function LexOutside(cs: string): (r: Result<seq<string>, ParseError>)
    ensures r.Err? ==> r == Err(Panic(NoCurrentToken))
  {
    OutsideFold(cs, [], false)
  }

  /** How the fold's `splitter` flag relates to the last token pushed. */
  predicate Coherent(acc: seq<string>, splitter: bool) {
    if acc == [] then !splitter else (splitter <==> IsDelimToken(acc[|acc| - 1]))
  }

  lemma {:induction false} ConcatAppend(ts: seq<string>, t: string)
    ensures Concat(ts + [t]) == Concat(ts) + t
  {
    if ts != [] {
      ConcatAppend(ts[1..], t);
      assert (ts + [t])[1..] == ts[1..] + [t];
    }
  }

  lemma {:induction false} ConcatExtendLast(acc: seq<string>, c: char)
    requires acc != []
    ensures Concat(acc[..|acc| - 1] + [acc[|acc| - 1] + [c]]) == Concat(acc) + [c]
  {
    var init, last := acc[..|acc| - 1], acc[|acc| - 1];
    assert init + [last] == acc;
    ConcatAppend(init, last);
    ConcatAppend(init, last + [c]);
    assert Concat(init) + (last + [c]) == (Concat(init) + last) + [c];
  }

  /**
   * The fold over an outside fragment fails exactly when a character that
   * is neither whitespace nor a delimiter arrives before any token exists,
   * that is, when the accumulator is empty and the first non-whitespace
   * character is not a delimiter.
   */
  lemma {:induction false} OutsideFoldFails(cs: string, acc: seq<string>, splitter: bool)
    requires Coherent(acc, splitter)
    ensures OutsideFold(cs, acc, splitter).Ok?
      <==> acc != [] || FirstSolid(cs).None? || IsDelimiter(FirstSolid(cs).value)
    ensures OutsideFold(cs, acc, splitter).Err? ==> OutsideFold(cs, acc, splitter) == Err(Panic(NoCurrentToken))
  {
    if cs != [] {
      var c := cs[0];
      if IsWhitespace(c) {
        OutsideFoldFails(cs[1..], acc, splitter);
      } else if IsDelimiter(c) || splitter {
        OutsideFoldFails(cs[1..], acc + [[c]], IsDelimiter(c));
      } else if acc != [] {
        OutsideFoldFails(cs[1..], acc[..|acc| - 1] + [acc[|acc| - 1] + [c]], false);
      }
    }
  }

  /** On success the fold emits well-shaped, maximal tokens. */
  lemma {:induction false} OutsideFoldShape(cs: string, acc: seq<string>, splitter: bool)
    requires Shaped(acc) && NoAdjacentBare(acc) && Coherent(acc, splitter)
    ensures var r := OutsideFold(cs, acc, splitter);
      r.Ok? ==> Shaped(r.value) && NoAdjacentBare(r.value)
  {
    if cs != [] {
      var c := cs[0];
      if IsWhitespace(c) {
        OutsideFoldShape(cs[1..], acc, splitter);
      } else if IsDelimiter(c) || splitter {
        PushKeepsShape(acc, [c]);
        OutsideFoldShape(cs[1..], acc + [[c]], IsDelimiter(c));
      } else if acc != [] {
        ExtendKeepsShape(acc, c);
        OutsideFoldShape(cs[1..], acc[..|acc| - 1] + [acc[|acc| - 1] + [c]], false);
      }
    }
  }

  /** The tokens the fold emits spell the fragment with its whitespace deleted. */
  lemma {:induction false} OutsideFoldSpells(cs: string, acc: seq<string>, splitter: bool)
    ensures var r := OutsideFold(cs, acc, splitter);
      r.Ok? ==> Concat(r.value) == Concat(acc) + Solid(cs)
  {
    if cs != [] {
      var c, rest := cs[0], cs[1..];
      if IsWhitespace(c) {
        assert Solid(cs) == Solid(rest);
        OutsideFoldSpells(rest, acc, splitter);
      } else {
        assert Solid(cs) == [c] + Solid(rest);
        if IsDelimiter(c) || splitter {
          ConcatAppend(acc, [c]);
          OutsideFoldSpells(rest, acc + [[c]], IsDelimiter(c));
        } else if acc != [] {
          ConcatExtendLast(acc, c);
          OutsideFoldSpells(rest, acc[..|acc| - 1] + [acc[|acc| - 1] + [c]], false);
        }
      }
    }
  }

  /** A token list that starts with a delimiter keeps starting with one. */
  lemma {:induction false} OutsideFoldHead(cs: string, acc: seq<string>, splitter: bool)
    requires Shaped(acc) && NoAdjacentBare(acc) && Coherent(acc, splitter)
    requires acc == [] || IsDelimToken(acc[0])
    ensures var r := OutsideFold(cs, acc, splitter);
      r.Ok? ==> r.value == [] || IsDelimToken(r.value[0])
  {
    if cs != [] {
      var c := cs[0];
      if IsWhitespace(c) {
        OutsideFoldHead(cs[1..], acc, splitter);
      } else if IsDelimiter(c) || splitter {
        PushKeepsShape(acc, [c]);
        OutsideFoldHead(cs[1..], acc + [[c]], IsDelimiter(c));
      } else if acc != [] {
        ExtendKeepsShape(acc, c);
        OutsideFoldHead(cs[1..], acc[..|acc| - 1] + [acc[|acc| - 1] + [c]], false);
      }
    }
  }

  /** The three facts above, for a fold started as `parse` starts it. */
  lemma OutsideFoldSpec(cs: string)
    ensures LexOutside(cs).Ok? <==> FirstSolid(cs).None? || IsDelimiter(FirstSolid(cs).value)
    ensures LexOutside(cs).Err? ==> LexOutside(cs) == Err(Panic(NoCurrentToken))
    ensures var r := LexOutside(cs);
      r.Ok? ==> && Shaped(r.value) && NoAdjacentBare(r.value) && Concat(r.value) == Solid(cs)
                && (r.value == [] || IsDelimToken(r.value[0]))
  {
    OutsideFoldFails(cs, [], false);
    OutsideFoldShape(cs, [], false);
    OutsideFoldSpells(cs, [], false);
    OutsideFoldHead(cs, [], false);
  }

  lemma PushKeepsShape(acc: seq<string>, t: string)
    requires Shaped(acc) && NoAdjacentBare(acc)
    requires IsDelimToken(t) || IsBareToken(t)
    requires acc != [] && IsBareToken(t) ==> !IsBareToken(acc[|acc| - 1])
    ensures Shaped(acc + [t]) && NoAdjacentBare(acc + [t])
  {
  }

  lemma ExtendKeepsShape(acc: seq<string>, c: char)
    requires Shaped(acc) && NoAdjacentBare(acc) && acc != [] && IsBareToken(acc[|acc| - 1])
    requires !IsWhitespace(c) && !IsDelimiter(c)
    ensures var acc' := acc[..|acc| - 1] + [acc[|acc| - 1] + [c]];
      Shaped(acc') && NoAdjacentBare(acc') && IsBareToken(acc'[|acc'| - 1]) && acc'[0][0] == acc[0][0]
  {
    var acc' := acc[..|acc| - 1] + [acc[|acc| - 1] + [c]];
    assert forall i :: 0 <= i < |acc| - 1 ==> acc'[i] == acc[i];
  }

  /** The number of leading characters that are not delimiters. */
  function BareRun(s: string): (n: nat)
    ensures n <= |s|
  {
    if s == [] || IsDelimiter(s[0]) then 0 else 1 + BareRun(s[1..])
  }

  lemma {:induction false} BareRunPrefix(b: string, rest: string)
    requires forall i :: 0 <= i < |b| ==> !IsDelimiter(b[i])
    requires rest == [] || IsDelimiter(rest[0])
    ensures BareRun(b + rest) == |b|
  {
    if b != [] {
      BareRunPrefix(b[1..], rest);
      assert (b + rest)[1..] == b[1..] + rest;
    }
  }

  lemma ConcatHead(ts: seq<string>)
    requires Shaped(ts) && ts != []
    ensures Concat(ts) != [] && Concat(ts)[0] == ts[0][0]
  {
  }

  /**
   * A whitespace-free text has only one decomposition into well-shaped
   * maximal tokens.
   */
  lemma {:induction false} DecompositionUnique(a: seq<string>, b: seq<string>)
    requires Shaped(a) && NoAdjacentBare(a) && Shaped(b) && NoAdjacentBare(b)
    requires Concat(a) == Concat(b)
    ensures a == b
    decreases |a|
  {
    if a == [] || b == [] {
      if a != [] { ConcatHead(a); }
      if b != [] { ConcatHead(b); }
    } else {
      var s := Concat(a);
      ConcatHead(a);
      ConcatHead(b);
      var n := if IsDelimiter(s[0]) then 1 else BareRun(s);
      if !IsDelimiter(s[0]) {
        BareRunOfShaped(a);
        BareRunOfShaped(b);
      }
      assert a[0] == s[..n] == b[0];
      assert s[n..] == Concat(a[1..]) == Concat(b[1..]);
      DecompositionUnique(a[1..], b[1..]);
    }
  }

  lemma BareRunOfShaped(ts: seq<string>)
    requires Shaped(ts) && NoAdjacentBare(ts) && ts != [] && IsBareToken(ts[0])
    ensures BareRun(Concat(ts)) == |ts[0]|
  {
    if |ts| > 1 {
      ConcatHead(ts[1..]);
    }
    BareRunPrefix(ts[0], Concat(ts[1..]));
  }

  lemma {:induction false} ConcatSolid(ts: seq<string>)
    requires Shaped(ts)
    ensures Solid(Concat(ts)) == Concat(ts)
    ensures FirstSolid(Concat(ts)) == if ts == [] then None else Some(ts[0][0])
  {
    if ts != [] {
      ConcatSolid(ts[1..]);
      SolidPrefix(ts[0], Concat(ts[1..]));
    }
  }

  lemma {:induction false} SolidPrefix(w: string, rest: string)
    requires w != [] && forall i :: 0 <= i < |w| ==> !IsWhitespace(w[i])
    ensures Solid(w + rest) == w + Solid(rest)
    ensures FirstSolid(w + rest) == Some(w[0])
  {
    if |w| > 1 {
      SolidPrefix(w[1..], rest);
    }
    assert (w + rest)[1..] == w[1..] + rest;
  }

  /**
   * The outside fold inverts concatenation: a list of well-shaped, maximal
   * tokens that starts with a delimiter is recovered from its text.
   */
  lemma OutsideFoldInverse(ts: seq<string>)
    requires Shaped(ts) && NoAdjacentBare(ts)
    requires ts == [] || IsDelimToken(ts[0])
    ensures LexOutside(Concat(ts)) == Ok(ts)
  {
    ConcatSolid(ts);
    OutsideFoldSpec(Concat(ts));
    DecompositionUnique(LexOutside(Concat(ts)).value, ts);
  }

  /**
   * Whitespace outside quotes never ends a token: lexing a fragment gives
   * the same result as lexing it with its whitespace deleted, so `1 2`
   * lexes like `12`.
   */
  lemma WhitespaceIrrelevant(cs: string)
    ensures LexOutside(cs) == LexOutside(Solid(cs))
  {
    OutsideFoldSpec(cs);
    OutsideFoldSpec(Solid(cs));
    SolidIdempotent(cs);
    var r := LexOutside(cs);
    if r.Ok? {
      assert Concat(r.value) == Solid(cs);
      OutsideFoldInverse(r.value);
    }
  }

  lemma {:induction false} SolidIdempotent(s: string)
    ensures Solid(Solid(s)) == Solid(s)
    ensures FirstSolid(Solid(s)) == FirstSolid(s)
  {
    if s != [] {
      SolidIdempotent(s[1..]);
      if IsWhitespace(s[0]) {
        assert Solid(s) == Solid(s[1..]);
      } else {
        assert Solid(s) == [s[0]] + Solid(s[1..]);
        SolidPrefix([s[0]], Solid(s[1..]));
      }
    }
  }

  // ---------------------------------------------------------------------
  // The fold over fragments

  /** A fragment whose closing quote was escaped by a backslash. */
  predicate EscapedEnd(frag: string) {
    frag != [] && frag[|frag| - 1] == '\\'
  }

  /** A string token keeps its quote markers. */
  function Quote(s: string): string {
    "\"" + s + "\""
  }

  /** The accumulator of the outer fold: tokens, the glued text, and `odd`. */
  datatype LexState = LexState(tokens: seq<string>, current: string, odd: bool)

  const Start := LexState([], "", true)

  /** One fragment of the outer fold. */
  function Step(st: LexState, frag: string): (r: Result<LexState, ParseError>)
    ensures r.Err? ==> r == Err(Panic(NoCurrentToken)) && st.odd
    ensures r.Ok? ==> st.tokens <= r.value.tokens
  {
    if EscapedEnd(frag) then
      Ok(LexState(st.tokens, st.current + frag + "\"", st.odd))
    else
      var current := st.current + frag;
      if st.odd then
        var ts :- LexOutside(current);
        Ok(LexState(st.tokens + ts, "", false))
      else
        Ok(LexState(st.tokens + [Quote(current)], "", true))
  }

  /** The outer fold, left to right. */
  function Fold(frags: seq<string>, st: LexState): (r: Result<LexState, ParseError>)
    ensures r.Err? ==> r == Err(Panic(NoCurrentToken))
    ensures r.Ok? ==> st.tokens <= r.value.tokens
  {
    if frags == [] then Ok(st)
    else
      var next :- Step(st, frags[0]);
      Fold(frags[1..], next)
  }

  /** The token list `parse` hands to `parse_obj`. */
  function Lex(s: string): (r: Result<seq<string>, ParseError>)
    ensures r.Err? ==> r == Err(Panic(NoCurrentToken))
  {
    var st :- Fold(Split(s), Start);
    Ok(st.tokens)
  }

  // ---------------------------------------------------------------------
  // A reference definition of the lexer in two stages

  /**
   * Stage one, escapes: each fragment ending in a backslash is joined to
   * the next one with the quote the split removed. A trailing group still
   * pending at the end of the text is dropped.
   */
  function Glue(frags: seq<string>, pending: string): seq<string> {
    if frags == [] then []
    else if EscapedEnd(frags[0]) then Glue(frags[1..], pending + frags[0] + "\"")
    else [pending + frags[0]] + Glue(frags[1..], "")
  }

  /**
   * A fragment ending in a backslash and the fragment after it form one
   * group, the quote between them kept: `"x\"y"` is one string.
   */
  lemma GlueJoinsEscaped(w: string, j: string, rest: seq<string>)
    requires EscapedEnd(w) && !EscapedEnd(j)
    ensures Glue([w, j] + rest, "") == [w + "\"" + j] + Glue(rest, "")
  {
    var frags := [w, j] + rest;
    assert frags[0] == w && frags[1..] == [j] + rest;
    assert ([j] + rest)[0] == j && ([j] + rest)[1..] == rest;
    assert "" + w + "\"" == w + "\"";
  }

  /**
   * Stage two, alternation: groups are outside and inside quotes in turn,
   * starting with `odd`; outside groups are split into delimiter and bare
   * tokens, inside groups become one quoted token.
   */
  function Classify(groups: seq<string>, odd: bool): Result<seq<string>, ParseError> {
    if groups == [] then Ok([])
    else
      var head :- if odd then LexOutside(groups[0]) else Ok([Quote(groups[0])]);
      var tail :- Classify(groups[1..], !odd);
      Ok(head + tail)
  }

  function TokensOf(r: Result<LexState, ParseError>): Result<seq<string>, ParseError> {
    match r
    case Ok(st) => Ok(st.tokens)
    case Err(e) => Err(e)
  }

  function Prepend(ts: seq<string>, r: Result<seq<string>, ParseError>): Result<seq<string>, ParseError> {
    match r
    case Ok(more) => Ok(ts + more)
    case Err(e) => Err(e)
  }

  /** The fold emits what the two stages emit, after the tokens it has. */
  lemma {:induction false} FoldIsGlueThenClassify(frags: seq<string>, st: LexState)
    ensures TokensOf(Fold(frags, st)) == Prepend(st.tokens, Classify(Glue(frags, st.current), st.odd))
  {
    if frags != [] {
      var f := frags[0];
      if EscapedEnd(f) {
        FoldIsGlueThenClassify(frags[1..], LexState(st.tokens, st.current + f + "\"", st.odd));
      } else {
        var g := st.current + f;
        var groups := Glue(frags, st.current);
        assert groups == [g] + Glue(frags[1..], "");
        assert groups[1..] == Glue(frags[1..], "");
        var head := if st.odd then LexOutside(g) else Ok([Quote(g)]);
        if head.Ok? {
          var next := LexState(st.tokens + head.value, "", !st.odd);
          assert Step(st, f) == Ok(next);
          FoldIsGlueThenClassify(frags[1..], next);
          var tail := Classify(groups[1..], !st.odd);
          if tail.Ok? {
            assert st.tokens + head.value + tail.value == st.tokens + (head.value + tail.value);
          }
        } else {
          assert Step(st, f) == Err(head.error);
        }
      }
    } else {
      assert st.tokens + [] == st.tokens;
    }
  }

  /** `Lex` is the two stages applied to the quote-split text. */
  lemma LexIsGlueThenClassify(s: string)
    ensures Lex(s) == Classify(Glue(Split(s), ""), true)
  {
    FoldIsGlueThenClassify(Split(s), Start);
    var c := Classify(Glue(Split(s), ""), true);
    if c.Ok? {
      assert [] + c.value == c.value;
    }
  }

  /** Without escaped quotes every fragment is a group of its own. */
  lemma {:induction false} GlueWithoutEscapes(frags: seq<string>)
    requires forall i :: 0 <= i < |frags| ==> !EscapedEnd(frags[i])
    ensures Glue(frags, "") == frags
  {
    if frags != [] {
      GlueWithoutEscapes(frags[1..]);
      assert "" + frags[0] == frags[0];
    }
  }

  /** The three token shapes: delimiter, bare run, or quoted run. */
  predicate IsLexToken(t: string) {
    IsDelimToken(t) || IsBareToken(t) || IsQuotedToken(t)
  }

  lemma {:induction false} ClassifyShapes(groups: seq<string>, odd: bool)
    ensures var r := Classify(groups, odd);
      r.Ok? ==> forall i :: 0 <= i < |r.value| ==> IsLexToken(r.value[i])
  {
    if groups != [] {
      ClassifyShapes(groups[1..], !odd);
      if odd {
        OutsideFoldSpec(groups[0]);
      }
    }
  }

  /** Every token the lexer emits is a delimiter, a bare run or a quoted run. */
  lemma LexTokenShapes(s: string)
    ensures var r := Lex(s);
      r.Ok? ==> forall i :: 0 <= i < |r.value| ==> IsLexToken(r.value[i])
  {
    LexIsGlueThenClassify(s);
    ClassifyShapes(Glue(Split(s), ""), true);
  }

  /**
   * A text without escaped quotes lexes fragment by fragment: the fragments
   * outside quotes through the outside fold, those inside as quoted tokens.
   */
  lemma LexPlainText(frags: seq<string>)
    requires |frags| >= 1
    requires forall i :: 0 <= i < |frags| ==> QuoteFree(frags[i]) && !EscapedEnd(frags[i])
    ensures Lex(Join(frags)) == Classify(frags, true)
  {
    SplitJoin(frags);
    GlueWithoutEscapes(frags);
    LexIsGlueThenClassify(Join(frags));
  }

  // ---------------------------------------------------------------------
  // Lexing inverts writing the tokens out

  lemma {:induction false} ConcatSplit(a: seq<string>, b: seq<string>)
    ensures Concat(a + b) == Concat(a) + Concat(b)
  {
    if a == [] {
      assert a + b == b;
    } else {
      ConcatSplit(a[1..], b);
      assert (a + b)[1..] == a[1..] + b;
      calc {
        Concat(a + b);
        a[0] + Concat(a[1..] + b);
        a[0] + (Concat(a[1..]) + Concat(b));
        (a[0] + Concat(a[1..])) + Concat(b);
      }
    }
  }

  /** What lies between the quotes of a quoted token. */
  function Content(t: string): string
    requires |t| >= 2
  {
    t[1..|t| - 1]
  }

  /**
   * A token the lexer gives back from its text: a delimiter, a bare run
   * with no quote and no trailing backslash, or a quoted run whose inside
   * has neither.
   */
  predicate WritableToken(t: string) {
    || IsDelimToken(t)
    || (IsBareToken(t) && QuoteFree(t) && !EscapedEnd(t))
    || (IsQuotedToken(t) && QuoteFree(Content(t)) && !EscapedEnd(Content(t)))
  }

  /** Every bare token, except perhaps the first, directly follows a delimiter. */
  predicate Separated(ts: seq<string>) {
    forall i {:trigger IsBareToken(ts[i])} :: 0 < i < |ts| && IsBareToken(ts[i]) ==> IsDelimToken(ts[i - 1])
  }

  /** A token list that can be written out and read back. */
  predicate Writable(ts: seq<string>) {
    && (forall i {:trigger WritableToken(ts[i])} :: 0 <= i < |ts| ==> WritableToken(ts[i]))
    && Separated(ts)
    && (ts != [] ==> !IsBareToken(ts[0]))
  }

  /** The number of leading tokens that lie outside quotes. */
  function OutsideRun(ts: seq<string>): (n: nat)
    ensures n <= |ts|
    ensures forall i :: 0 <= i < n ==> !IsQuotedToken(ts[i])
    ensures n < |ts| ==> IsQuotedToken(ts[n])
  {
    if ts == [] || IsQuotedToken(ts[0]) then 0 else 1 + OutsideRun(ts[1..])
  }

  /**
   * The quote-separated fragments of the written tokens: each run of
   * tokens outside quotes, written out, alternating with the inside of
   * each quoted token.
   */
  function Fragments(ts: seq<string>): (fs: seq<string>)
    ensures |fs| >= 1
    decreases |ts|
  {
    var n := OutsideRun(ts);
    if n == |ts| then [Concat(ts)]
    else [Concat(ts[..n]), Content(ts[n])] + Fragments(ts[n + 1..])
  }

  lemma SplitAround(ts: seq<string>, n: nat)
    requires n < |ts|
    ensures ts == ts[..n] + [ts[n]] + ts[n + 1..]
  {
  }

  lemma Assoc(a: string, b: string, c: string)
    ensures (a + b) + c == a + (b + c)
  {
  }

  /** Joining a run's text, a quoted inside and more fragments. */
  lemma JoinQuoted(run: seq<string>, t: string, rest: seq<string>, after: seq<string>)
    requires IsQuotedToken(t) && |rest| >= 1 && Join(rest) == Concat(after)
    ensures Join([Concat(run), Content(t)] + rest) == Concat(run + [t] + after)
  {
    var fs := [Concat(run), Content(t)] + rest;
    var a, c, j, q := Concat(run), Content(t), Concat(after), "\"";
    assert fs[1..][1..] == rest;
    assert Join(fs[1..]) == (c + q) + j;
    QuoteContent(t);
    assert Concat([t] + after) == t + j by {
      assert ([t] + after)[1..] == after;
    }
    assert run + [t] + after == run + ([t] + after);
    ConcatSplit(run, [t] + after);
    calc {
      Join(fs);
      (a + q) + ((c + q) + j);
      { Assoc(a, q, (c + q) + j); }
      a + (q + ((c + q) + j));
      { Assoc(c, q, j); }
      a + (q + (c + (q + j)));
      { Assoc(q, c, q + j); }
      a + ((q + c) + (q + j));
      { Assoc(q + c, q, j); }
      a + (((q + c) + q) + j);
      a + (t + j);
      Concat(run + [t] + after);
    }
  }

  lemma {:induction false} FragmentsJoin(ts: seq<string>)
    ensures Join(Fragments(ts)) == Concat(ts)
    decreases |ts|
  {
    var n := OutsideRun(ts);
    if n < |ts| {
      var t, after := ts[n], ts[n + 1..];
      FragmentsJoin(after);
      JoinQuoted(ts[..n], t, Fragments(after), after);
      SplitAround(ts, n);
    }
  }

  lemma {:induction false} ConcatQuoteFree(ts: seq<string>)
    requires forall i :: 0 <= i < |ts| ==> QuoteFree(ts[i])
    ensures QuoteFree(Concat(ts))
  {
    if ts != [] {
      ConcatQuoteFree(ts[1..]);
    }
  }

  lemma {:induction false} ConcatLast(ts: seq<string>)
    requires ts != [] && ts[|ts| - 1] != []
    ensures Concat(ts) != [] && Concat(ts)[|Concat(ts)| - 1] == ts[|ts| - 1][|ts[|ts| - 1]| - 1]
  {
    assert ts == ts[..|ts| - 1] + [ts[|ts| - 1]];
    ConcatSplit(ts[..|ts| - 1], [ts[|ts| - 1]]);
  }

  /** The tokens of a run outside quotes: delimiters and plain bare runs. */
  predicate OutsideToken(t: string) {
    IsDelimToken(t) || (IsBareToken(t) && QuoteFree(t) && !EscapedEnd(t))
  }

  lemma RunShaped(run: seq<string>)
    requires forall i :: 0 <= i < |run| ==> OutsideToken(run[i])
    requires Separated(run) && (run != [] ==> !IsBareToken(run[0]))
    ensures Shaped(run) && NoAdjacentBare(run) && (run == [] || IsDelimToken(run[0]))
  {
    forall i | 0 < i < |run|
      ensures !IsBareToken(run[i - 1]) || !IsBareToken(run[i])
    {
      if IsBareToken(run[i]) {
        assert IsDelimToken(run[i - 1]);
      }
    }
  }

  /** A run outside quotes writes out to a fragment with no quote and no trailing backslash. */
  lemma RunIsPlain(run: seq<string>)
    requires forall i :: 0 <= i < |run| ==> OutsideToken(run[i])
    ensures QuoteFree(Concat(run)) && !EscapedEnd(Concat(run))
  {
    assert forall i :: 0 <= i < |run| ==> QuoteFree(run[i]);
    ConcatQuoteFree(run);
    if run != [] {
      var last := run[|run| - 1];
      assert OutsideToken(last);
      ConcatLast(run);
    }
  }

  /** A run outside quotes lexes back from its text. */
  lemma RunLexes(run: seq<string>)
    requires forall i :: 0 <= i < |run| ==> OutsideToken(run[i])
    requires Separated(run) && (run != [] ==> !IsBareToken(run[0]))
    ensures LexOutside(Concat(run)) == Ok(run)
  {
    RunShaped(run);
    OutsideFoldInverse(run);
  }

  /** The tokens before the first quoted token form a run outside quotes. */
  lemma RunOfWritable(ts: seq<string>)
    requires Writable(ts)
    ensures var run := ts[..OutsideRun(ts)];
      && (forall i :: 0 <= i < |run| ==> OutsideToken(run[i]))
      && Separated(run) && (run != [] ==> !IsBareToken(run[0]))
  {
    var run := ts[..OutsideRun(ts)];
    forall i | 0 <= i < |run|
      ensures OutsideToken(run[i])
    {
      assert run[i] == ts[i] && WritableToken(ts[i]) && !IsQuotedToken(ts[i]);
    }
    forall i | 0 < i < |run| && IsBareToken(run[i])
      ensures IsDelimToken(run[i - 1])
    {
      assert run[i] == ts[i] && run[i - 1] == ts[i - 1];
    }
  }

  /** What follows the first quoted token is writable again. */
  lemma AfterQuotedWritable(ts: seq<string>, n: nat)
    requires Writable(ts) && n < |ts| && IsQuotedToken(ts[n])
    ensures Writable(ts[n + 1..])
  {
    var after := ts[n + 1..];
    forall i | 0 <= i < |after|
      ensures WritableToken(after[i])
    {
      assert after[i] == ts[n + 1 + i];
    }
    forall i | 0 < i < |after| && IsBareToken(after[i])
      ensures IsDelimToken(after[i - 1])
    {
      assert after[i] == ts[n + 1 + i] && after[i - 1] == ts[n + i];
    }
    if after != [] {
      assert after[0] == ts[n + 1];
    }
  }

  lemma {:induction false} FragmentsPlain(ts: seq<string>)
    requires Writable(ts)
    ensures forall i :: 0 <= i < |Fragments(ts)| ==> QuoteFree(Fragments(ts)[i]) && !EscapedEnd(Fragments(ts)[i])
    decreases |ts|
  {
    var n := OutsideRun(ts);
    RunOfWritable(ts);
    RunIsPlain(ts[..n]);
    if n == |ts| {
      assert ts[..n] == ts;
    } else {
      assert WritableToken(ts[n]);
      AfterQuotedWritable(ts, n);
      FragmentsPlain(ts[n + 1..]);
    }
  }

  lemma ContentOfQuote(s: string)
    ensures |Quote(s)| >= 2 && Content(Quote(s)) == s
  {
  }

  lemma QuoteContent(t: string)
    requires IsQuotedToken(t)
    ensures Quote(Content(t)) == t
  {
    assert t == [t[0]] + Content(t) + [t[|t| - 1]];
  }

  /** The groups of a run outside quotes followed by a quoted token. */
  lemma ClassifyQuoted(run: seq<string>, t: string, rest: seq<string>, after: seq<string>)
    requires LexOutside(Concat(run)) == Ok(run) && IsQuotedToken(t)
    requires Classify(rest, true) == Ok(after)
    ensures Classify([Concat(run), Content(t)] + rest, true) == Ok(run + [t] + after)
  {
    var groups := [Concat(run), Content(t)] + rest;
    assert groups[1..][1..] == rest;
    QuoteContent(t);
    assert Classify(groups[1..], false) == Ok([t] + after);
    assert run + ([t] + after) == run + [t] + after;
  }

  lemma {:induction false} FragmentsClassify(ts: seq<string>)
    requires Writable(ts)
    ensures Classify(Fragments(ts), true) == Ok(ts)
    decreases |ts|
  {
    var n := OutsideRun(ts);
    var run := ts[..n];
    RunOfWritable(ts);
    RunLexes(run);
    if n == |ts| {
      assert run == ts && Fragments(ts) == [Concat(run)];
      assert Classify([Concat(run)][1..], false) == Ok([]);
      assert run + [] == ts;
    } else {
      var t, after := ts[n], ts[n + 1..];
      AfterQuotedWritable(ts, n);
      FragmentsClassify(after);
      ClassifyQuoted(run, t, Fragments(after), after);
      SplitAround(ts, n);
      calc {
        Classify(Fragments(ts), true);
        Classify([Concat(run), Content(t)] + Fragments(after), true);
        Ok(run + [t] + after);
      }
    }
  }

  /**
   * Writing out a writable token list and lexing the text gives the tokens
   * back.
   */
  lemma LexWritten(ts: seq<string>)
    requires Writable(ts)
    ensures Lex(Concat(ts)) == Ok(ts)
  {
    FragmentsPlain(ts);
    FragmentsClassify(ts);
    FragmentsJoin(ts);
    LexPlainText(Fragments(ts));
  }
}
