/** Token kinds emitted by the PHP lexer, and tokens as (kind, text) pairs. */
module Tokens {

  /** The token kinds the PHP lexer emits (Rouge's token taxonomy, restricted to what it uses).
      `Delegated` stands for whatever the parent HTML lexer emits for a span handed to it;
      `Error` is the driver's fallback for input no rule of the current mode matches. */
  datatype Kind =
    | Text
    | CommentSingle | CommentMultiline | CommentDoc | CommentPreproc
    | Keyword | KeywordNamespace | KeywordDeclaration | KeywordType | KeywordConstant
    | NameVariable | NameFunction | NameClass | NameNamespace | NameConstant
    | NameAttribute | NameBuiltin | NameOther
    | Operator | Punctuation
    | NumFloat | NumOct | NumBin | NumHex | NumInteger
    | StrSingle | StrDouble | StrBacktick | StrHeredoc | StrEscape | StrInterpol
    | Delegated
    | Error

  /** An optional value. */
  datatype Option<T> = None | Some(value: T)

  /** One emitted token: its kind and the exact text it covers. */
  datatype Token = Token(kind: Kind, text: string)

  /** The text covered by a token sequence, in emission order. */
  function Texts(ts: seq<Token>): string
  {
    if ts == [] then [] else ts[0].text + Texts(ts[1..])
  }

  /** Covered text distributes over concatenation of token sequences. */
  lemma {:induction false} TextsAppend(a: seq<Token>, b: seq<Token>)
    ensures Texts(a + b) == Texts(a) + Texts(b)
  {
    if a == [] {
      assert a + b == b;
    } else {
      assert (a + b)[1..] == a[1..] + b;
      TextsAppend(a[1..], b);
    }
  }
}
