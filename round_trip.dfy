/**
 * JSON documents as a writer produces them, and what the decoder makes of
 * them. `Render` writes a document as the token list of its text and
 * `Value` gives the value it denotes; the walks of `parse_obj` and
 * `parse_arr` read every rendered container back as its value, from any
 * position in any surrounding token list, and `parse` reads back every
 * rendered object whose strings and keys contain no quote and do not end
 * in a backslash.
 */
module RoundTrip {
  import opened Results
  import opened JsonTypes
  import opened NumberSyntax
  import opened ParseErrors
  import opened Lexer
  import opened Parser
  import ValueProperties

  /**
   * A document as written: members keep their order and may repeat a key,
   * which a `JsonValue` cannot express.
   */
  datatype Doc =
    | Str(s: string)
    | IntLit(n: i64)
    | FloatLit(text: string)
    | BoolLit(b: bool)
    | NullLit
    | Obj(members: seq<Member>)
    | Arr(elements: seq<Doc>)

  datatype Member = Member(key: string, doc: Doc)

  predicate IsContainer(d: Doc) {
    d.Obj? || d.Arr?
  }

  /** Float text that `parse_value` sends to `f64` parsing and that is accepted there. */
  predicate FloatLiteral(t: string) {
    t != [] && t[0] != '"' && !IsKeyword(t) && !DigitsAndMinus(t) && FloatSyntax(t)
  }

  /** Every float literal in the document is one. */
  predicate WellFormed(d: Doc) {
    match d
    case FloatLit(t) => FloatLiteral(t)
    case Obj(ms) => MembersWellFormed(ms)
    case Arr(ds) => ElementsWellFormed(ds)
    case _ => true
  }

  predicate ElementsWellFormed(ds: seq<Doc>) {
    ds == [] || (WellFormed(ds[0]) && ElementsWellFormed(ds[1..]))
  }

  predicate MembersWellFormed(ms: seq<Member>) {
    ms == [] || (WellFormed(ms[0].doc) && MembersWellFormed(ms[1..]))
  }

  /** A size that shrinks from a container to each of its entries. */
  function Size(d: Doc): nat {
    match d
    case Obj(ms) => 1 + MembersSize(ms)
    case Arr(ds) => 1 + ElementsSize(ds)
    case _ => 1
  }

  function ElementsSize(ds: seq<Doc>): nat {
    if |ds| == 0 then 0 else Size(ds[0]) + 1 + ElementsSize(ds[1..])
  }

  function MembersSize(ms: seq<Member>): nat {
    if |ms| == 0 then 0 else Size(ms[0].doc) + 1 + MembersSize(ms[1..])
  }

  // ---------------------------------------------------------------------
  // Meaning and rendering

  /** The value a document denotes. */
  function Value(d: Doc): JsonValue {
    match d
    case Str(s) => String(s)
    case IntLit(n) => Number(Int(n))
    case FloatLit(t) => Number(Float(t))
    case BoolLit(b) => Bool(b)
    case NullLit => Null
    case Obj(ms) => Object(Insert(ms, map[]))
    case Arr(ds) => Array(Values(ds))
  }

  function Values(ds: seq<Doc>): (vs: seq<JsonValue>)
    ensures |vs| == |ds|
  {
    if ds == [] then [] else [Value(ds[0])] + Values(ds[1..])
  }

  /** The members stored one after the other into `acc`. */
  function Insert(ms: seq<Member>, acc: map<string, JsonValue>): map<string, JsonValue> {
    if ms == [] then acc else Insert(ms[1..], acc[ms[0].key := Value(ms[0].doc)])
  }

  /** The one token of a document that is not a container. */
  function LeafToken(d: Doc): string
    requires !IsContainer(d)
  {
    match d
    case Str(s) => Quote(s)
    case IntLit(n) => IntToString(n)
    case FloatLit(t) => t
    case BoolLit(b) => if b then "true" else "false"
    case NullLit => "null"
  }

  /** The tokens of a document, `,` between elements and members, `:` after each key. */
  function Render(d: Doc): seq<string> {
    match d
    case Obj(ms) => ["{"] + RenderMembers(ms) + ["}"]
    case Arr(ds) => ["["] + RenderElements(ds) + ["]"]
    case _ => [LeafToken(d)]
  }

  function RenderElements(ds: seq<Doc>): seq<string> {
    if ds == [] then [] else Render(ds[0]) + (if |ds| == 1 then [] else [","] + RenderElements(ds[1..]))
  }

  function RenderMembers(ms: seq<Member>): seq<string> {
    if ms == [] then []
    else [Quote(ms[0].key), ":"] + Render(ms[0].doc) + (if |ms| == 1 then [] else [","] + RenderMembers(ms[1..]))
  }

  /** Storing members only adds their keys. */
  lemma {:induction false} InsertKeys(ms: seq<Member>, acc: map<string, JsonValue>)
    ensures Insert(ms, acc).Keys == acc.Keys + set i | 0 <= i < |ms| :: ms[i].key
  {
    if ms != [] {
      var next := acc[ms[0].key := Value(ms[0].doc)];
      InsertKeys(ms[1..], next);
      var later := set i | 0 <= i < |ms[1..]| :: ms[1..][i].key;
      var all := set i | 0 <= i < |ms| :: ms[i].key;
      assert all == {ms[0].key} + later by {
        forall k | k in all ensures k in {ms[0].key} + later {
          var i :| 0 <= i < |ms| && ms[i].key == k;
          if i > 0 { assert ms[1..][i - 1].key == k; }
        }
        forall k | k in later ensures k in all {
          var i :| 0 <= i < |ms[1..]| && ms[1..][i].key == k;
          assert ms[i + 1].key == k;
        }
      }
    }
  }

  /** A key that no member names keeps whatever `acc` held for it. */
  lemma {:induction false} InsertKeepsOthers(ms: seq<Member>, acc: map<string, JsonValue>, k: string)
    requires forall i :: 0 <= i < |ms| ==> ms[i].key != k
    ensures k in Insert(ms, acc) <==> k in acc
    ensures k in acc ==> Insert(ms, acc)[k] == acc[k]
  {
    if ms != [] {
      assert ms[0].key != k;
      InsertKeepsOthers(ms[1..], acc[ms[0].key := Value(ms[0].doc)], k);
    }
  }

  /** Of members that repeat a key, the last one wins. */
  lemma {:induction false} InsertLastWins(ms: seq<Member>, acc: map<string, JsonValue>, i: nat)
    requires i < |ms|
    requires forall j :: i < j < |ms| ==> ms[j].key != ms[i].key
    ensures ms[i].key in Insert(ms, acc) && Insert(ms, acc)[ms[i].key] == Value(ms[i].doc)
  {
    var next := acc[ms[0].key := Value(ms[0].doc)];
    if i == 0 {
      InsertKeepsOthers(ms[1..], next, ms[0].key);
    } else {
      InsertLastWins(ms[1..], next, i - 1);
    }
  }

  // ---------------------------------------------------------------------
  // Leaves

  /** An atom parser that reads every leaf token back as the leaf's value. */
  ghost predicate ReadsLeaves(atom: AtomParser) {
    forall d {:trigger LeafToken(d)} :: !IsContainer(d) && WellFormed(d) ==> atom(LeafToken(d)) == Ok(Value(d))
  }

  /** `parse_value` reads every well-formed leaf back. */
  lemma ParseValueReadsLeaves()
    ensures ReadsLeaves(ParseValue)
  {
    forall d | !IsContainer(d) && WellFormed(d)
      ensures ParseValue(LeafToken(d)) == Ok(Value(d))
    {
      match d
      case Str(s) => ContentOfQuote(s);
      case IntLit(n) => ValueProperties.IntTokenRoundTrip(n);
      case FloatLit(t) =>
      case BoolLit(b) => ValueProperties.KeywordsAreExact();
      case NullLit => ValueProperties.KeywordsAreExact();
    }
  }

  /** No float literal is one of the six structural tokens. */
  lemma FloatLiteralIsNotStructural(t: string)
    requires FloatLiteral(t)
    ensures ObjOther(t) && ArrOther(t)
  {
    forall s | s in ["{", "}", "[", "]", ":", ","]
      ensures !FloatLiteral(s)
    {
      ValueProperties.StructuralTokensAreNotValues(s);
    }
  }

  /** Both walks hand every leaf token to their catch-all arm. */
  lemma LeafTokenIsOther(d: Doc)
    requires !IsContainer(d) && WellFormed(d)
    ensures ObjOther(LeafToken(d)) && ArrOther(LeafToken(d))
  {
    match d
    case Str(s) =>
    case IntLit(n) =>
      IntToStringChars(n);
      var t := IntToString(n);
      assert IsDigit(t[0]) || t[0] == '-';
    case FloatLit(t) => FloatLiteralIsNotStructural(t);
    case BoolLit(b) =>
    case NullLit =>
  }

  // ---------------------------------------------------------------------
  // Reading rendered tokens back

  /** The token list holds `piece` from position `pos` on. */
  predicate Holds(tokens: seq<string>, pos: nat, piece: seq<string>)
    decreases piece
  {
    piece == [] || (pos < |tokens| && tokens[pos] == piece[0] && Holds(tokens, pos + 1, piece[1..]))
  }

  lemma {:induction false} HoldsSplit(tokens: seq<string>, pos: nat, a: seq<string>, b: seq<string>)
    requires Holds(tokens, pos, a + b)
    ensures Holds(tokens, pos, a) && Holds(tokens, pos + |a|, b)
    decreases a
  {
    if a == [] {
      assert a + b == b;
    } else {
      DropFirst(a, b);
      HoldsSplit(tokens, pos + 1, a[1..], b);
    }
  }

  lemma DropFirst(a: seq<string>, b: seq<string>)
    requires a != []
    ensures (a + b)[0] == a[0] && (a + b)[1..] == a[1..] + b
  {
  }

  lemma HoldsHead(tokens: seq<string>, pos: nat, piece: seq<string>)
    requires Holds(tokens, pos, piece) && piece != []
    ensures pos < |tokens| && tokens[pos] == piece[0]
  {
  }

  /** A token list holds itself, and whatever it ends with, from the right place. */
  lemma {:induction false} HoldsSuffix(tokens: seq<string>, pos: nat)
    requires pos <= |tokens|
    ensures Holds(tokens, pos, tokens[pos..])
    decreases |tokens| - pos
  {
    if pos < |tokens| {
      assert tokens[pos..][1..] == tokens[pos + 1..];
      HoldsSuffix(tokens, pos + 1);
    }
  }

  lemma LeafRender(d: Doc)
    requires !IsContainer(d)
    ensures Render(d) == [LeafToken(d)]
  {
  }

  lemma ContainerOpens(d: Doc)
    requires IsContainer(d)
    ensures Render(d) != [] && Render(d)[0] == (if d.Obj? then "{" else "[")
  {
  }

  /** The tokens after the first element, up to the closing `]`. */
  lemma ElementsUnfold(ds: seq<Doc>)
    requires ds != []
    ensures RenderElements(ds) + ["]"]
      == Render(ds[0]) + (if |ds| == 1 then ["]"] else [","] + (RenderElements(ds[1..]) + ["]"]))
    ensures |RenderElements(ds)| == |Render(ds[0])| + (if |ds| == 1 then 0 else 1 + |RenderElements(ds[1..])|)
  {
  }

  /** The tokens after the first member's key and `:`, up to the closing `}`. */
  lemma MembersUnfold(ms: seq<Member>)
    requires ms != []
    ensures RenderMembers(ms) + ["}"]
      == [Quote(ms[0].key), ":"] + (Render(ms[0].doc) + (if |ms| == 1 then ["}"] else [","] + (RenderMembers(ms[1..]) + ["}"])))
    ensures |RenderMembers(ms)| == 2 + |Render(ms[0].doc)| + (if |ms| == 1 then 0 else 1 + |RenderMembers(ms[1..])|)
  {
    var tail := if |ms| == 1 then [] else [","] + RenderMembers(ms[1..]);
    assert RenderMembers(ms) == [Quote(ms[0].key), ":"] + Render(ms[0].doc) + tail;
    Regroup([Quote(ms[0].key), ":"], Render(ms[0].doc), tail, ["}"]);
    if |ms| > 1 {
      Regroup3([","], RenderMembers(ms[1..]), ["}"]);
    }
  }

  lemma Regroup(a: seq<string>, b: seq<string>, c: seq<string>, d: seq<string>)
    ensures a + b + c + d == a + (b + (c + d))
  {
  }

  lemma Regroup3(a: seq<string>, b: seq<string>, c: seq<string>)
    ensures a + b + c == a + (b + c)
  {
  }

  /** The values after the last element is appended. */
  lemma ValuesLast(acc: seq<JsonValue>, ds: seq<Doc>, all: seq<JsonValue>)
    requires |ds| == 1 && all == acc + Values(ds)
    ensures all == acc + [Value(ds[0])]
  {
    assert Values(ds[1..]) == [];
  }

  /** The values still to append after the first element is appended. */
  lemma ValuesStep(acc: seq<JsonValue>, ds: seq<Doc>, all: seq<JsonValue>)
    requires ds != [] && all == acc + Values(ds)
    ensures all == (acc + [Value(ds[0])]) + Values(ds[1..])
  {
  }

  /** Two steps of the array walk make one. */
  lemma ArrChain(atom: AtomParser, tokens: seq<string>, first: nat, pos: nat, mid: nat,
                 acc: seq<JsonValue>, acc2: seq<JsonValue>, r: Result<(nat, JsonValue), ParseError>)
    requires first < pos && first < mid
    requires ArrLoop(atom, tokens, first, pos, acc) == ArrLoop(atom, tokens, first, mid, acc2)
    requires ArrLoop(atom, tokens, first, mid, acc2) == r
    ensures ArrLoop(atom, tokens, first, pos, acc) == r
  {
  }

  /** Two steps of the object walk make one. */
  lemma ObjChain(atom: AtomParser, tokens: seq<string>, first: nat, pos: nat, mid: nat, key: Option<string>,
                 key2: Option<string>, acc: map<string, JsonValue>, acc2: map<string, JsonValue>,
                 r: Result<(nat, JsonValue), ParseError>)
    requires first < pos && first < mid
    requires ObjLoop(atom, tokens, first, pos, key, acc) == ObjLoop(atom, tokens, first, mid, key2, acc2)
    requires ObjLoop(atom, tokens, first, mid, key2, acc2) == r
    ensures ObjLoop(atom, tokens, first, pos, key, acc) == r
  {
  }

  /** A rendered leaf read by the array walk. */
  lemma LeafElementStep(atom: AtomParser, d: Doc, tokens: seq<string>, first: nat, pos: nat, acc: seq<JsonValue>)
    requires ReadsLeaves(atom) && WellFormed(d) && !IsContainer(d)
    requires first < pos < |tokens| && tokens[pos] == LeafToken(d)
    ensures ArrLoop(atom, tokens, first, pos, acc) == ArrLoop(atom, tokens, first, pos + 1, acc + [Value(d)])
  {
    LeafTokenIsOther(d);
    ArrTakesValue(atom, tokens, first, pos, acc);
  }

  /** A rendered leaf read by the object walk under the pending key. */
  lemma LeafValueStep(atom: AtomParser, d: Doc, tokens: seq<string>, first: nat, pos: nat, key: string,
                      acc: map<string, JsonValue>)
    requires ReadsLeaves(atom) && WellFormed(d) && !IsContainer(d)
    requires first < pos < |tokens| && tokens[pos] == LeafToken(d)
    ensures ObjLoop(atom, tokens, first, pos, Some(key), acc) == ObjLoop(atom, tokens, first, pos + 1, None, acc[key := Value(d)])
  {
    LeafTokenIsOther(d);
    ObjTakesValue(atom, tokens, first, pos, key, acc);
  }

  /** A rendered key and its `:` make the key pending. */
  lemma KeyStep(atom: AtomParser, tokens: seq<string>, first: nat, pos: nat, key: string, acc: map<string, JsonValue>)
    requires first < pos && Holds(tokens, pos, [Quote(key), ":"])
    ensures ObjLoop(atom, tokens, first, pos, None, acc) == ObjLoop(atom, tokens, first, pos + 2, Some(key), acc)
  {
    HoldsSplit(tokens, pos, [Quote(key)], [":"]);
    HoldsHead(tokens, pos, [Quote(key)]);
    HoldsHead(tokens, pos + 1, [":"]);
    ContentOfQuote(key);
    ObjTakesKey(atom, tokens, first, pos, acc);
    ObjSkipsSeparators(atom, tokens, first, pos + 1, Some(key), acc);
  }

  /**
   * A rendered element read by the array walk: the walk appends its value
   * and resumes right after its tokens.
   */
  lemma {:induction false} ElementStep(atom: AtomParser, d: Doc, tokens: seq<string>, first: nat, pos: nat, acc: seq<JsonValue>)
    requires ReadsLeaves(atom) && WellFormed(d) && first < pos && Holds(tokens, pos, Render(d))
    ensures ArrLoop(atom, tokens, first, pos, acc) == ArrLoop(atom, tokens, first, pos + |Render(d)|, acc + [Value(d)])
    decreases Size(d), 2
  {
    if IsContainer(d) {
      ContainerOpens(d);
      HoldsHead(tokens, pos, Render(d));
      ContainerReads(atom, d, tokens, pos);
      ArrResumesAfterNested(atom, tokens, first, pos, acc, |Render(d)| - 1, Value(d));
    } else {
      LeafRender(d);
      HoldsHead(tokens, pos, Render(d));
      LeafElementStep(atom, d, tokens, first, pos, acc);
    }
  }

  /** A rendered member value read by the object walk under the pending key. */
  lemma {:induction false} MemberValueStep(atom: AtomParser, d: Doc, tokens: seq<string>, first: nat, pos: nat, key: string,
                                           acc: map<string, JsonValue>)
    requires ReadsLeaves(atom) && WellFormed(d) && first < pos && Holds(tokens, pos, Render(d))
    ensures ObjLoop(atom, tokens, first, pos, Some(key), acc)
      == ObjLoop(atom, tokens, first, pos + |Render(d)|, None, acc[key := Value(d)])
    decreases Size(d), 2
  {
    if IsContainer(d) {
      ContainerOpens(d);
      HoldsHead(tokens, pos, Render(d));
      ContainerReads(atom, d, tokens, pos);
      ObjResumesAfterNested(atom, tokens, first, pos, key, acc, |Render(d)| - 1, Value(d));
    } else {
      LeafRender(d);
      HoldsHead(tokens, pos, Render(d));
      LeafValueStep(atom, d, tokens, first, pos, key, acc);
    }
  }

  /**
   * The array walk over rendered elements followed by `]` appends their
   * values in order and closes at that `]`, at position `close`, with the
   * values `all`.
   */
  lemma {:induction false} ElementsRead(atom: AtomParser, ds: seq<Doc>, tokens: seq<string>, first: nat, pos: nat,
                                        acc: seq<JsonValue>, close: nat, all: seq<JsonValue>)
    requires ReadsLeaves(atom) && ElementsWellFormed(ds)
    requires first < pos && Holds(tokens, pos, RenderElements(ds) + ["]"])
    requires close == pos + |RenderElements(ds)| && all == acc + Values(ds)
    ensures ArrLoop(atom, tokens, first, pos, acc) == Ok((close - first, Array(all)))
    decreases ElementsSize(ds), 1
  {
    if ds == [] {
      HoldsHead(tokens, pos, RenderElements(ds) + ["]"]);
      ArrCloses(atom, tokens, first, pos, acc);
      assert all == acc;
    } else if |ds| == 1 {
      ElementsUnfold(ds);
      ValuesLast(acc, ds, all);
      ElementThen(atom, ds[0], tokens, first, pos, acc, ["]"]);
      HoldsHead(tokens, close, ["]"]);
      ArrClosesAfter(atom, tokens, first, pos, acc, close, all);
    } else {
      ElementsUnfold(ds);
      ValuesStep(acc, ds, all);
      ElementsConsRead(atom, ds[0], ds[1..], tokens, first, pos, acc, close, all);
    }
  }

  /** A rendered element read by the array walk, with what follows it. */
  lemma ElementThen(atom: AtomParser, d: Doc, tokens: seq<string>, first: nat, pos: nat, acc: seq<JsonValue>, more: seq<string>)
    requires ReadsLeaves(atom) && WellFormed(d)
    requires first < pos && Holds(tokens, pos, Render(d) + more)
    ensures Holds(tokens, pos + |Render(d)|, more)
    ensures ArrLoop(atom, tokens, first, pos, acc) == ArrLoop(atom, tokens, first, pos + |Render(d)|, acc + [Value(d)])
    decreases Size(d), 3
  {
    HoldsSplit(tokens, pos, Render(d), more);
    ElementStep(atom, d, tokens, first, pos, acc);
  }

  /** A rendered element and the `,` after it, read by the array walk. */
  lemma ElementThenComma(atom: AtomParser, d: Doc, tokens: seq<string>, first: nat, pos: nat, acc: seq<JsonValue>,
                         more: seq<string>)
    requires ReadsLeaves(atom) && WellFormed(d)
    requires first < pos && Holds(tokens, pos, Render(d) + ([","] + more))
    ensures Holds(tokens, pos + |Render(d)| + 1, more)
    ensures ArrLoop(atom, tokens, first, pos, acc) == ArrLoop(atom, tokens, first, pos + |Render(d)| + 1, acc + [Value(d)])
    decreases Size(d), 4
  {
    var next := pos + |Render(d)|;
    ElementThen(atom, d, tokens, first, pos, acc, [","] + more);
    HoldsSplit(tokens, next, [","], more);
    HoldsHead(tokens, next, [","]);
    ArrSkipsComma(atom, tokens, first, next, acc + [Value(d)]);
    ArrChain(atom, tokens, first, pos, next, acc, acc + [Value(d)], ArrLoop(atom, tokens, first, next + 1, acc + [Value(d)]));
  }

  /** A walk that reaches a `]` closes there. */
  lemma ArrClosesAfter(atom: AtomParser, tokens: seq<string>, first: nat, pos: nat, acc: seq<JsonValue>,
                       close: nat, all: seq<JsonValue>)
    requires first < pos && first < close < |tokens| && tokens[close] == "]"
    requires ArrLoop(atom, tokens, first, pos, acc) == ArrLoop(atom, tokens, first, close, all)
    ensures ArrLoop(atom, tokens, first, pos, acc) == Ok((close - first, Array(all)))
  {
    ArrCloses(atom, tokens, first, close, all);
  }

  /** An element followed by `,` and more elements. */
  lemma {:induction false} ElementsConsRead(atom: AtomParser, d: Doc, rest: seq<Doc>, tokens: seq<string>, first: nat,
                                            pos: nat, acc: seq<JsonValue>, close: nat, all: seq<JsonValue>)
    requires ReadsLeaves(atom) && WellFormed(d) && |rest| != 0 && ElementsWellFormed(rest)
    requires first < pos && Holds(tokens, pos, Render(d) + ([","] + (RenderElements(rest) + ["]"])))
    requires close == pos + |Render(d)| + 1 + |RenderElements(rest)|
    requires all == (acc + [Value(d)]) + Values(rest)
    ensures ArrLoop(atom, tokens, first, pos, acc) == Ok((close - first, Array(all)))
    decreases Size(d) + 1 + ElementsSize(rest), 0
  {
    ElementThenComma(atom, d, tokens, first, pos, acc, RenderElements(rest) + ["]"]);
    ElementsRead(atom, rest, tokens, first, pos + |Render(d)| + 1, acc + [Value(d)], close, all);
    ArrChain(atom, tokens, first, pos, pos + |Render(d)| + 1, acc, acc + [Value(d)], Ok((close - first, Array(all))));
  }

  /**
   * The object walk over rendered members followed by `}` stores them in
   * order and closes at that `}`, at position `close`, with the map `into`.
   */
  lemma {:induction false} MembersRead(atom: AtomParser, ms: seq<Member>, tokens: seq<string>, first: nat, pos: nat,
                                       acc: map<string, JsonValue>, close: nat, into: map<string, JsonValue>)
    requires ReadsLeaves(atom) && MembersWellFormed(ms)
    requires first < pos && Holds(tokens, pos, RenderMembers(ms) + ["}"])
    requires close == pos + |RenderMembers(ms)| && into == Insert(ms, acc)
    ensures ObjLoop(atom, tokens, first, pos, None, acc) == Ok((close - first, Object(into)))
    decreases MembersSize(ms), 1
  {
    if ms == [] {
      HoldsHead(tokens, pos, RenderMembers(ms) + ["}"]);
      ObjCloses(atom, tokens, first, pos, None, acc);
    } else if |ms| == 1 {
      LastMemberRead(atom, ms, tokens, first, pos, acc, close, into);
    } else {
      MembersUnfold(ms);
      MembersConsRead(atom, ms[0], ms[1..], tokens, first, pos, acc, close, into);
    }
  }

  /** The tokens of a key, its `:`, a value and what follows, one after another. */
  lemma MemberHolds(tokens: seq<string>, pos: nat, k: string, r: seq<string>, more: seq<string>)
    requires Holds(tokens, pos, [k, ":"] + (r + more))
    ensures Holds(tokens, pos, [k, ":"]) && Holds(tokens, pos + 2, r) && Holds(tokens, pos + 2 + |r|, more)
  {
    HoldsSplit(tokens, pos, [k, ":"], r + more);
    HoldsSplit(tokens, pos + 2, r, more);
  }

  /** A rendered member, key, `:` and value, read by the object walk. */
  lemma MemberStep(atom: AtomParser, m: Member, tokens: seq<string>, first: nat, pos: nat, acc: map<string, JsonValue>,
                   more: seq<string>)
    requires ReadsLeaves(atom) && WellFormed(m.doc)
    requires first < pos && Holds(tokens, pos, [Quote(m.key), ":"] + (Render(m.doc) + more))
    ensures Holds(tokens, pos + 2 + |Render(m.doc)|, more)
    ensures ObjLoop(atom, tokens, first, pos, None, acc)
      == ObjLoop(atom, tokens, first, pos + 2 + |Render(m.doc)|, None, acc[m.key := Value(m.doc)])
    decreases Size(m.doc), 3
  {
    MemberHolds(tokens, pos, Quote(m.key), Render(m.doc), more);
    KeyStep(atom, tokens, first, pos, m.key, acc);
    MemberValueStep(atom, m.doc, tokens, first, pos + 2, m.key, acc);
    ObjChain(atom, tokens, first, pos, pos + 2, None, Some(m.key), acc, acc,
             ObjLoop(atom, tokens, first, pos + 2 + |Render(m.doc)|, None, acc[m.key := Value(m.doc)]));
  }

  /** A rendered member and the `,` after it, read by the object walk. */
  lemma MemberThenComma(atom: AtomParser, m: Member, tokens: seq<string>, first: nat, pos: nat, acc: map<string, JsonValue>,
                        more: seq<string>)
    requires ReadsLeaves(atom) && WellFormed(m.doc)
    requires first < pos && Holds(tokens, pos, [Quote(m.key), ":"] + (Render(m.doc) + ([","] + more)))
    ensures Holds(tokens, pos + 3 + |Render(m.doc)|, more)
    ensures ObjLoop(atom, tokens, first, pos, None, acc)
      == ObjLoop(atom, tokens, first, pos + 3 + |Render(m.doc)|, None, acc[m.key := Value(m.doc)])
    decreases Size(m.doc), 4
  {
    var next := pos + 2 + |Render(m.doc)|;
    MemberStep(atom, m, tokens, first, pos, acc, [","] + more);
    HoldsSplit(tokens, next, [","], more);
    HoldsHead(tokens, next, [","]);
    ObjSkipsSeparators(atom, tokens, first, next, None, acc[m.key := Value(m.doc)]);
    ObjChain(atom, tokens, first, pos, next, None, None, acc, acc[m.key := Value(m.doc)],
             ObjLoop(atom, tokens, first, next + 1, None, acc[m.key := Value(m.doc)]));
  }

  /** The last member and the closing `}`. */
  lemma {:induction false} LastMemberRead(atom: AtomParser, ms: seq<Member>, tokens: seq<string>, first: nat, pos: nat,
                                          acc: map<string, JsonValue>, close: nat, into: map<string, JsonValue>)
    requires ReadsLeaves(atom) && |ms| == 1 && WellFormed(ms[0].doc)
    requires first < pos && Holds(tokens, pos, RenderMembers(ms) + ["}"])
    requires close == pos + |RenderMembers(ms)| && into == Insert(ms, acc)
    ensures ObjLoop(atom, tokens, first, pos, None, acc) == Ok((close - first, Object(into)))
    decreases MembersSize(ms), 0
  {
    var m := ms[0];
    MembersUnfold(ms);
    MemberStep(atom, m, tokens, first, pos, acc, ["}"]);
    HoldsHead(tokens, close, ["}"]);
    assert into == acc[m.key := Value(m.doc)];
    ObjCloses(atom, tokens, first, close, None, into);
    ObjChain(atom, tokens, first, pos, close, None, None, acc, into, Ok((close - first, Object(into))));
  }

  /** A member followed by `,` and more members. */
  lemma {:induction false} MembersConsRead(atom: AtomParser, m: Member, rest: seq<Member>, tokens: seq<string>,
                                           first: nat, pos: nat, acc: map<string, JsonValue>, close: nat,
                                           into: map<string, JsonValue>)
    requires ReadsLeaves(atom) && WellFormed(m.doc) && |rest| != 0 && MembersWellFormed(rest)
    requires first < pos && Holds(tokens, pos, [Quote(m.key), ":"] + (Render(m.doc) + ([","] + (RenderMembers(rest) + ["}"]))))
    requires close == pos + 3 + |Render(m.doc)| + |RenderMembers(rest)|
    requires into == Insert(rest, acc[m.key := Value(m.doc)])
    ensures ObjLoop(atom, tokens, first, pos, None, acc) == Ok((close - first, Object(into)))
    decreases Size(m.doc) + 1 + MembersSize(rest), 0
  {
    MemberThenComma(atom, m, tokens, first, pos, acc, RenderMembers(rest) + ["}"]);
    MembersRead(atom, rest, tokens, first, pos + 3 + |Render(m.doc)|, acc[m.key := Value(m.doc)], close, into);
    ObjChain(atom, tokens, first, pos, pos + 3 + |Render(m.doc)|, None, None, acc, acc[m.key := Value(m.doc)],
             Ok((close - first, Object(into))));
  }

  /**
   * From the opening token of a rendered container, the walk it starts
   * returns the container's value and the offset of its closing token.
   */
  lemma {:induction false} ContainerReads(atom: AtomParser, d: Doc, tokens: seq<string>, pos: nat)
    requires ReadsLeaves(atom) && WellFormed(d) && IsContainer(d) && Holds(tokens, pos, Render(d))
    ensures pos < |tokens| && Nested(atom, tokens, pos) == Ok((|Render(d)| - 1, Value(d)))
    decreases Size(d), 1
  {
    if d.Obj? {
      ObjectReads(atom, d, tokens, pos);
    } else {
      ArrayReads(atom, d, tokens, pos);
    }
  }

  lemma {:induction false} ObjectReads(atom: AtomParser, d: Doc, tokens: seq<string>, pos: nat)
    requires ReadsLeaves(atom) && WellFormed(d) && d.Obj? && Holds(tokens, pos, Render(d))
    ensures pos < |tokens| && Nested(atom, tokens, pos) == Ok((|Render(d)| - 1, Value(d)))
    decreases Size(d), 0
  {
    var ms := d.members;
    Regroup3(["{"], RenderMembers(ms), ["}"]);
    HoldsSplit(tokens, pos, ["{"], RenderMembers(ms) + ["}"]);
    HoldsHead(tokens, pos, ["{"]);
    MembersRead(atom, ms, tokens, pos, pos + 1, map[], pos + 1 + |RenderMembers(ms)|, Insert(ms, map[]));
  }

  lemma {:induction false} ArrayReads(atom: AtomParser, d: Doc, tokens: seq<string>, pos: nat)
    requires ReadsLeaves(atom) && WellFormed(d) && d.Arr? && Holds(tokens, pos, Render(d))
    ensures pos < |tokens| && Nested(atom, tokens, pos) == Ok((|Render(d)| - 1, Value(d)))
    decreases Size(d), 0
  {
    var ds := d.elements;
    Regroup3(["["], RenderElements(ds), ["]"]);
    HoldsSplit(tokens, pos, ["["], RenderElements(ds) + ["]"]);
    HoldsHead(tokens, pos, ["["]);
    assert [] + Values(ds) == Values(ds);
    ElementsRead(atom, ds, tokens, pos, pos + 1, [], pos + 1 + |RenderElements(ds)|, Values(ds));
  }

  /**
   * `parse_obj` started at a rendered object, wherever it sits in the
   * token list, returns its value and the offset of its closing `}`; it
   * reads nothing outside the object's tokens.
   */
  lemma ObjAtReadsRendered(d: Doc, tokens: seq<string>, pos: nat)
    requires WellFormed(d) && d.Obj? && Holds(tokens, pos, Render(d))
    ensures ObjAt(tokens, pos) == Ok((|Render(d)| - 1, Value(d)))
  {
    ParseValueReadsLeaves();
    ContainerReads(ParseValue, d, tokens, pos);
    ContainerOpens(d);
    HoldsHead(tokens, pos, Render(d));
  }

  /** The same for `parse_arr` and a rendered array. */
  lemma ArrAtReadsRendered(d: Doc, tokens: seq<string>, pos: nat)
    requires WellFormed(d) && d.Arr? && Holds(tokens, pos, Render(d))
    ensures ArrAt(tokens, pos) == Ok((|Render(d)| - 1, Value(d)))
  {
    ParseValueReadsLeaves();
    ContainerReads(ParseValue, d, tokens, pos);
    ContainerOpens(d);
    HoldsHead(tokens, pos, Render(d));
  }
}
