/**
 * The token tree Prism's tokenizer returns. A token is either a plain string
 * (untyped text) or a typed token with a category, an optional alias and a
 * content that is itself a string or a list of nested tokens.
 */
module Tokens {
  import opened Options

  datatype Token =
    | Str(s: string)
    | Typed(kind: string, alias: Option<string>, content: Content)

  datatype Content =
    | Leaf(s: string)
    | Nested(children: seq<Token>)

  /** Number of characters of the tokenized string a token covers: the total length of its leaf strings. */
  function Length(t: Token): nat
  {
    match t
    case Str(s) => |s|
    case Typed(_, _, Leaf(s)) => |s|
    case Typed(_, _, Nested(children)) => SeqLength(children)
  }

  /** Total length of a list of tokens laid end to end. */
  function SeqLength(ts: seq<Token>): nat
  {
    if ts == [] then 0 else Length(ts[0]) + SeqLength(ts[1..])
  }
}
