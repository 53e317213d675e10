# json-util decoder, modelled in Dafny

This project models the decoder of the Rust crate `json-util` and proves
properties of the model. The decoder accepts a loose subset of JSON.

- **Value type** (`src/define_type.rs`). `JsonValue` and `Number` are tagged
  unions. There are seven checked narrowing conversions (`TryInto`), which
  succeed only on an exact tag match, and a keyed lookup `at`.
- **Lexer** (the fold inside `parse`, `src/parser.rs`). The text is split on
  `"`. Fragments outside quotes lose their whitespace and become delimiter
  tokens (`{ } [ ] : ,`) and bare runs. A fragment inside quotes becomes one
  quoted token. A fragment ending in a backslash is glued to the next one,
  keeping the quote.
- **Tree builder**. `parse_value` classifies one token. `parse_obj` and
  `parse_arr` are mutually recursive loops over the token list. `parse`
  starts `parse_obj` at token 0.

Every panic of the Rust code is an explicit `Panic(kind)` error here, except
the char-boundary slicing panics and stack exhaustion on deep nesting (see
"Left out"). The panics modelled are:

- indexing past the end of the tokens;
- `unwrap` of an absent key;
- slicing a key or string token shorter than two characters;
- `last_mut().unwrap()` on an empty token list.

The indexing panic of `at` on an absent key is not a `Panic(kind)`: it is the
error `KeyNotFound`, beside the conversion error `TypeUnmatched`.

The files:

- `results.dfy`: `Option` and `Result`.
- `parse_error.dfy`: the error datatype.
- `json_types.dfy`: `define_type.rs`.
- `number_syntax.dfy`: the input grammars of `i64::from_str` and
  `f64::from_str`.
- `lexer.dfy`: the fold in `parse`, and a two-stage reference definition of
  it. Stage one glues escaped fragments; stage two alternates outside and
  inside groups.
- `parser.dfy`: `parse_value`; `ObjLoop` and `ArrLoop`, the loops of
  `parse_obj` and `parse_arr` stated one token per step; and the methods
  `ParseObj`, `ParseArr` and `Parse`, which are the loops themselves, proved
  equal to those functions.
- `value_props.dfy`: token classification.
- `walk.dfy`: a successful walk ends at the matching closing token.
- `round_trip.dfy`: written documents (`Doc`) rendered as tokens are read
  back by the walks as their values.
- `text_round_trip.dfy`: rendered objects written out as text are parsed
  back by `parse`; a worked example of a string holding an escaped quote.

## Model

| member | source | states |
|---|---|---|
| JsonTypes.AsFloat | src/define_type.rs:19-28 | `Number -> f64` succeeds exactly for `Float` and returns its own payload |
| JsonTypes.AsInt | src/define_type.rs:29-38 | `Number -> i64` succeeds exactly for `Int` and returns its own payload |
| JsonTypes.NoNumericCoercion | src/define_type.rs:19-38 | exactly one of the two numeric conversions succeeds: no Int/Float coercion |
| JsonTypes.At | src/define_type.rs:42-48 | a non-object gives `TypeUnmatched`; on an object the lookup succeeds exactly when the key is present and gives the stored value, a strictly smaller value; a missing key is `KeyNotFound` (the indexing panic), and `KeyNotFound` arises only on an object |
| JsonTypes.AtPathDescends | src/define_type.rs:42-48 | a chain of `at` calls joined by `?` that succeeds starts at an object and yields a value strictly inside it |
| JsonTypes.AsString | src/define_type.rs:50-59 | succeeds exactly for `String`; the value is rebuilt from the result |
| JsonTypes.AsNumber | src/define_type.rs:60-69 | succeeds exactly for `Number`; the value is rebuilt from the result |
| JsonTypes.AsBool | src/define_type.rs:70-79 | succeeds exactly for `Bool`; the value is rebuilt from the result |
| JsonTypes.AsObject | src/define_type.rs:80-89 | succeeds exactly for `Object`; the map is returned unchanged |
| JsonTypes.AsArray | src/define_type.rs:90-99 | succeeds exactly for `Array`; the sequence is returned unchanged |
| JsonTypes.AtMostOneConversion | src/define_type.rs:50-99 | at most one of the five `JsonValue` conversions succeeds, and none for `Null` |
| NumberSyntax.ParseI64 | src/parser.rs:17 | `i64` parsing succeeds exactly when the text is an optional sign followed by at least one digit whose signed value fits in 64 bits, and then returns that value |
| NumberSyntax.SignAndZeros | src/parser.rs:17 | `007`, `-0` and `+12` parse as 7, 0 and 12; a lone sign and the empty text are rejected |
| NumberSyntax.FloatSyntax | src/parser.rs:15 | `f64` acceptance as the documented grammar of `f64::from_str`; the lemmas below and `Parser.ParseValueCases` state which tokens it admits |
| NumberSyntax.DigitsRoundTrip | src/parser.rs:17 | the digit value inverts decimal rendering |
| NumberSyntax.I64RoundTrip | src/parser.rs:17 | `i64` parsing inverts the canonical rendering of every `i64` |
| NumberSyntax.I64RejectsOverflow | src/parser.rs:17 | integers outside `i64` are rejected, not wrapped |
| NumberSyntax.ShortNullIsNotFloat | src/parser.rs:8-15 | `nul` is not float syntax |
| NumberSyntax.CapitalTrueIsNotFloat | src/parser.rs:10-15 | `True` is not float syntax |
| NumberSyntax.FractionIsFloat | src/parser.rs:15 | `3.0` is float syntax |
| NumberSyntax.ExponentIsFloat | src/parser.rs:15 | `1e3` is float syntax |
| NumberSyntax.PlusSignIsFloat | src/parser.rs:15 | `+5` is float syntax |
| Parser.ParseValue | src/parser.rs:4-20 | `parse_value` never makes an object or an array; `Parser.ParseValueCases` gives each branch |
| Parser.ParseValueCases | src/parser.rs:4-20 | Each of the following holds in both directions. A string exactly for a leading `"` and at least two characters, holding the token minus its end characters. `null`/`true`/`false` exactly for those three words. An `Int` exactly for a digits-and-`-` token that `i64` accepts. A `Float` (its text) exactly for the remaining tokens in float syntax. The slice panic exactly for a lone `"`. The integer error exactly for a digits-and-`-` token that `i64` rejects. The float error exactly for any other token outside float syntax |
| Parser.KeyOf | src/parser.rs:46 | a key is its token without the first and last character: the token is the key wrapped in those two |
| Parser.ObjAt | src/parser.rs:22-25 | `parse_obj(tokens, pos)` succeeds only with an offset `d >= 1` at which `tokens[pos + d]` is `}`, and an `Object`; `Walk.ObjAtCloses` adds that it is the matching `}` |
| Parser.ArrAt | src/parser.rs:56-57 | `parse_arr(tokens, pos)` succeeds only with an offset `d >= 1` at which `tokens[pos + d]` is `]`, and an `Array` |
| Parser.ObjLoop | src/parser.rs:22-54 | a successful object walk returns an offset at which `tokens` holds `}`, not before the start, and an `Object` |
| Parser.ArrLoop | src/parser.rs:56-83 | a successful array walk returns an offset at which `tokens` holds `]`, and an `Array` |
| Parser.ObjPastEnd | src/parser.rs:28 | running past the end of the tokens is an index panic |
| Parser.ObjSkipsSeparators | src/parser.rs:43 | `:` and `,` change nothing inside an object |
| Parser.ObjTakesKey | src/parser.rs:44-46 | with no key pending, a token becomes the key minus its first and last character; a token shorter than 2 panics |
| Parser.ObjTakesValue | src/parser.rs:47-48 | with a key pending, a token's value is stored under the key and the key is cleared; a value error is returned as is |
| Parser.ObjTakesNested | src/parser.rs:30-42 | a nested container is stored under the pending key and the walk resumes after its closing token; its error propagates; with no key pending it panics |
| Parser.ObjResumesAfterNested | src/parser.rs:30-42 | the successful case of the nested step, named by the nested result |
| Parser.ObjCloses | src/parser.rs:35-36 | `}` ends the object with its offset; a pending key is dropped |
| Parser.ArrPastEnd | src/parser.rs:61 | running past the end of the tokens is an index panic |
| Parser.ArrSkipsComma | src/parser.rs:68 | `,` changes nothing inside an array |
| Parser.ArrTakesValue | src/parser.rs:77-79 | any other token's value is appended in order; a value error is returned as is |
| Parser.ArrTakesNested | src/parser.rs:63-73 | a nested container is appended and the walk resumes after it; its error propagates |
| Parser.ArrResumesAfterNested | src/parser.rs:63-73 | the successful case of the nested step, named by the nested result |
| Parser.ArrCloses | src/parser.rs:74-76 | `]` ends the array with its offset |
| Parser.ParseObj | src/parser.rs:22-54 | the loop of `parse_obj` computes exactly the object walk from `pos` |
| Parser.ParseArr | src/parser.rs:56-83 | the loop of `parse_arr` computes exactly the array walk from `pos` |
| Parser.ParseText | src/parser.rs:85-129 | `parse` succeeds only with an `Object`; `TextRoundTrip.ParseRoundTrip` and `Lexer.LexIsGlueThenClassify` characterise it |
| Parser.Parse | src/parser.rs:85-129 | `parse` lexes the text and returns the value of the object walk from token 0 |
| ValueProperties.IntTokenRoundTrip | src/parser.rs:14-17 | every canonically written `i64` token is classified as that `Int` |
| ValueProperties.WideIntTokenFails | src/parser.rs:14-17 | a written integer outside `i64` fails with the integer error |
| ValueProperties.KeywordsAreExact | src/parser.rs:8-13 | `null`, `true` and `false` give `Null`, `Bool(true)` and `Bool(false)` |
| ValueProperties.NearKeywordsFail | src/parser.rs:8-15 | `nul` and `True` fall through to the float branch and fail there |
| ValueProperties.NonIntegerTextIsFloat | src/parser.rs:14-15 | `3.0`, `1e3` and `+5` are `Float`s, never `Int`s |
| ValueProperties.MalformedIntTokens | src/parser.rs:14-17 | `-`, `1-2` and the empty token fail with the integer error |
| ValueProperties.StructuralTokensAreNotValues | src/parser.rs:4-20 | none of the six delimiter tokens is a value |
| Walk.ObjRejectsBracket | src/parser.rs:44-48 | a `]` inside an object panics as a key and fails as a value |
| Walk.ArrRejectsColonAndBrace | src/parser.rs:77-79 | a `:` or `}` inside an array is handed to `parse_value` and fails |
| Walk.ParseValueRejectsClosers | src/parser.rs:4-20 | `parse_value` rejects both closing tokens |
| Walk.ObjLoopCloses | src/parser.rs:25-36 | a successful object walk ends at the closing token matching its opening token, counted by nesting depth |
| Walk.ArrLoopCloses | src/parser.rs:57-75 | a successful array walk ends at the closing token matching its opening token |
| Walk.ObjAtCloses | src/parser.rs:25-36 | `parse_obj(tokens, pos)` succeeds only with an offset `d >= 1` where `tokens[pos + d]` is the matching `}` |
| Walk.ArrAtCloses | src/parser.rs:57-75 | `parse_arr(tokens, pos)` succeeds only with an offset `d >= 1` where `tokens[pos + d]` is the matching `]` |
| Lexer.IsWhitespace | src/parser.rs:100 | `char::is_whitespace`; no whitespace character is a quote or a delimiter, so dropping it never removes a token boundary |
| Lexer.Split | src/parser.rs:86 | `split('"')` always yields at least one fragment; `Lexer.JoinSplit` and `Lexer.SplitJoin` make `Join` its inverse |
| Lexer.OutsideFold | src/parser.rs:98-118 | the inner fold, one character per step: its only failure is the no-current-token panic, it cannot fail once a token exists, and it never lowers the token count; `Lexer.OutsideFoldFails` and `Lexer.OutsideFoldSpec` give exactly when it fails and what it returns |
| Lexer.LexOutside | src/parser.rs:98-118 | the inner fold started empty; its only failure is the no-current-token panic; `Lexer.OutsideFoldInverse` and `Lexer.DecompositionUnique` make it the inverse of writing tokens out |
| Lexer.Step | src/parser.rs:88-127 | one fragment of the outer fold: tokens are only appended, and only a fragment outside quotes can fail, with the no-current-token panic; `Lexer.FoldIsGlueThenClassify` gives the fold it drives |
| Lexer.Fold | src/parser.rs:87-128 | the outer fold: tokens are only appended and the only failure is the no-current-token panic; `Lexer.FoldIsGlueThenClassify` equates it with the two-stage definition from any state |
| Lexer.Lex | src/parser.rs:86-128 | the token list of `parse`; lexing can fail only with the no-current-token panic; `Lexer.LexIsGlueThenClassify`, `Lexer.LexTokenShapes` and `Lexer.LexWritten` characterise it |
| Lexer.JoinSplit | src/parser.rs:86 | splitting on `"` loses nothing: joining the fragments with `"` restores the text; no fragment holds a quote |
| Lexer.SplitJoin | src/parser.rs:86 | splitting the join of quote-free fragments gives the fragments back |
| Lexer.OutsideFoldFails | src/parser.rs:98-118 | the inner fold fails exactly when no token exists yet and the first non-whitespace character is not a delimiter, and then with the `last_mut` panic |
| Lexer.OutsideFoldSpec | src/parser.rs:98-118 | an outside fragment lexes exactly when its first non-whitespace character is a delimiter (or there is none), into delimiter and maximal bare tokens that spell the fragment minus its whitespace |
| Lexer.OutsideFoldInverse | src/parser.rs:98-118 | the inner fold inverts writing out a shaped token list that starts with a delimiter |
| Lexer.DecompositionUnique | src/parser.rs:98-118 | two shaped token lists with maximal bare runs that spell the same text are equal |
| Lexer.WhitespaceIrrelevant | src/parser.rs:100-101 | whitespace never ends a token: lexing ignores it entirely |
| Lexer.FoldIsGlueThenClassify | src/parser.rs:87-128 | the fold emits what gluing escaped fragments and then alternating outside and inside groups emits |
| Lexer.LexIsGlueThenClassify | src/parser.rs:86-128 | the lexer is the two-stage reference definition |
| Lexer.GlueWithoutEscapes | src/parser.rs:89-93 | without escaped endings no fragments are glued |
| Lexer.GlueJoinsEscaped | src/parser.rs:89-93 | a fragment ending in `\` joins the next one with the quote kept, as one group |
| Lexer.LexTokenShapes | src/parser.rs:86-128 | every emitted token is a delimiter, a bare run or a quoted run |
| Lexer.LexPlainText | src/parser.rs:86-128 | on text without escapes the lexer alternates outside and inside fragments, starting outside |
| Lexer.LexWritten | src/parser.rs:86-128 | writing out a writable token list and lexing it gives the tokens back |
| RoundTrip.InsertKeys | src/parser.rs:32-48 | storing members adds exactly their keys |
| RoundTrip.InsertKeepsOthers | src/parser.rs:32-48 | a key no member names keeps its earlier value |
| RoundTrip.InsertLastWins | src/parser.rs:32-48 | of members repeating a key, the last one's value is stored |
| RoundTrip.ParseValueReadsLeaves | src/parser.rs:4-20 | `parse_value` reads every well-formed rendered leaf back as its value |
| RoundTrip.ElementsRead | src/parser.rs:56-83 | the array walk over rendered elements returns their values in order and the offset of the `]` |
| RoundTrip.MembersRead | src/parser.rs:22-54 | the object walk over rendered members returns the map of their values (later keys win) and the offset of the `}` |
| RoundTrip.ContainerReads | src/parser.rs:22-83 | a walk started at a rendered container returns its value and the offset of its closing token |
| RoundTrip.ObjAtReadsRendered | src/parser.rs:22-54 | `parse_obj` at a rendered object anywhere in a token list returns its value and the offset of its `}` |
| RoundTrip.ArrAtReadsRendered | src/parser.rs:56-83 | `parse_arr` at a rendered array anywhere in a token list returns its value and the offset of its `]` |
| TextRoundTrip.RenderWritable | src/parser.rs:86-128 | the tokens of a plain container are writable: the lexer gives them back from their text |
| TextRoundTrip.ParseRoundTrip | src/parser.rs:85-129 | `parse` of the written text of a plain, well-formed object gives the object's value |
| TextRoundTrip.EscapedQuoteKept | src/parser.rs:86-128 | `{"a": "x\"y"}` lexes to the five tokens `{`, `"a"`, `:`, `"x\"y"`, `}`, and `parse` gives an object whose `a` is the string `x\"y`, backslash kept |

## Left out

- Floating point: `Number::Float` holds the token text, not an `f64`. Acceptance by `f64::from_str` is its documented grammar, written out in `FloatSyntax`; rounding and the value are not modelled.
- `HashMap` is a `map`: hashing, iteration order and capacity are not modelled. `Vec` is a `seq`. The capacity hints (`reserve_exact`, `with_capacity`) affect only performance.
- Strings are sequences of `char`. Slicing a token whose first or last character is multi-byte would panic in Rust (byte offsets off a char boundary); the model slices characters.
- `char::is_whitespace` is the Unicode `White_Space` set written out as code-point ranges.
- `ParseError` and its `From` conversions live in the crate root, which is not part of this model. The model uses `IntParse`, `FloatParse` and `Panic(kind)`.
- `Debug`/`Clone` derives: `.clone()` in `at` is the identity on Dafny values.
- A text whose last quote-split fragment ends in a backslash: the fold keeps the glued text pending and never emits it, so it is silently dropped. `Glue` models exactly this, but no lemma is stated about it.
- Parser.ParseValueCases: states which branch accepts a token, not which `f64` a float token denotes.
- Stack exhaustion: `parse_obj` and `parse_arr` recurse once per nesting level with no bound (src/parser.rs:30-34, 63-67), so deeply nested input overflows the Rust stack. `ObjLoop` and `ArrLoop` have no depth limit and return a value there.
- RoundTrip and TextRoundTrip cover documents as a writer renders them. Inputs with extra separators, missing commas or stray tokens are covered only by the one-step lemmas of `parser.dfy` and the matching lemmas of `walk.dfy`.

The code departs from RFC 8259 in these ways, and the model follows the code:

- `,` is emitted as a token, and the walks skip it, so missing or extra commas are accepted.
- A token that does not start with `"` and is not one of the keywords is read as an integer exactly when it consists only of digits and `-`. Otherwise it is read by `f64::from_str`, which also accepts `+5`, `.5`, `inf` and `NaN`.
- `parse` never checks that token 0 is `{`.
- A backslash before a quote keeps the quote inside the string but is not decoded: `{"a": "x\"y"}` gives the string `x\"y`, not `x"y` (`TextRoundTrip.EscapedQuoteKept`).

Where a reader might expect otherwise, the code also does the following:

- A token is a keyword only when it equals `null`, `true` or `false` exactly, as section 3 of RFC 8259 requires of literal names.
- `at` on an absent key panics (here `KeyNotFound`) rather than returning an error value; RFC 8259 defines no lookup.
