/** Source spans and the tokens the lexer produces. */
module Tokens {

  /** A half-open range `[start, end)` of positions in the input text. */
  datatype Span = Span(start: nat, end: nat) {
    function Len(): nat
      requires start <= end
    {
      end - start
    }
  }

  datatype TokenType =
    | Number
    | Identifier
    | Plus
    | Minus
    | Asterisk
    | Solidus
    | Colon
    | Comma
    | LeftParenthesis
    | RightParenthesis
    | ThinArrow
    | Return
    | Defn
    | Indentation
    | Comment
    | EOF
    | Integer
    | Floating
    | Moot

  datatype Token = Token(ty: TokenType, span: Span)
}
