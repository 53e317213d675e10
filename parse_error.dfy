/**
 * The decode errors. `ParseError` itself is declared in the crate root,
 * which is not part of this model; it wraps the integer and float parse
 * errors. Every panic of the decoder is modelled as an explicit `Panic`.
 */
module ParseErrors {

  /** The places where the decoder panics instead of returning `Err`. */
  datatype PanicKind =
    | IndexOutOfBounds   // `tokens[pos]` past the end of the token list
    | NoPendingKey       // `key.take().unwrap()` with no key pending
    | KeyTooShort        // slicing `token[1..len-1]` of a key shorter than 2
    | StringTooShort     // slicing `s[1..len-1]` of a lone `"` in `parse_value`
    | NoCurrentToken     // `last_mut().unwrap()` on an empty token list

  datatype ParseError =
    | IntParse           // `i64` parsing rejected the token
    | FloatParse         // `f64` parsing rejected the token
    | Panic(kind: PanicKind)
}
