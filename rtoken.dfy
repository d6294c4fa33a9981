/**
 * The parser-facing token of src/runtime/token.py and the `TokenStream`
 * cursor the hand-written parsers use: `peek` looks, `next` consumes,
 * `expect` consumes only a token of the required type.
 */
module RuntimeToken {
  import opened Wrappers

  /** `TokenType`. */
  datatype TokenType =
    | IDENTIFIER | NUMBER | STRING
    | IF | ELSE | WHILE | FOR | RETURN | INT | VOID
    | PLUS | MINUS | MULT | DIV | ASSIGN | EQ | NE | LT | GT | LE | GE
    | LPAREN | RPAREN | LBRACE | RBRACE | SEMI | COMMA
    | EOF

  /** The `Token` dataclass. */
  datatype Token = Token(type_: TokenType, value: string, line: int, column: int)

  /** What `peek` answers once the stream is exhausted. */
  const EofToken: Token := Token(EOF, "", -1, -1)

  /** The `SyntaxError` raised by `expect`, reduced to the facts its message reports. */
  datatype StreamError = UnexpectedToken(expected: TokenType, found: TokenType, line: int, column: int)

  class TokenStream {
    var tokens: seq<Token>
    var pos: nat

    constructor (tokens: seq<Token>)
      ensures this.tokens == tokens && pos == 0
    {
      this.tokens := tokens;
      pos := 0;
    }

    /** `peek`: the current token, or the EOF sentinel past the end; nothing moves. */
    function Peek(): (t: Token)
      reads this
      ensures pos < |tokens| ==> t == tokens[pos]
      ensures pos >= |tokens| ==> t == EofToken
    {
      if pos < |tokens| then tokens[pos] else EofToken
    }

    /** `next`: what `peek` would return; the cursor moves one place, even past the end. */
    method Next() returns (t: Token)
      modifies this`pos
      ensures t == old(Peek())
      ensures pos == old(pos) + 1
    {
      t := Peek();
      pos := pos + 1;
    }

    /**
     * `expect(type)`: on a match, the current token, and the cursor moves
     * one place; on a mismatch, an error naming both types and the position
     * of the offending token, and the cursor stays.
     */
    method Expect(ty: TokenType) returns (r: Result<Token, StreamError>)
      modifies this`pos
      ensures old(Peek()).type_ == ty ==> r == Ok(old(Peek())) && pos == old(pos) + 1
      ensures old(Peek()).type_ != ty ==>
        r == Err(UnexpectedToken(ty, old(Peek()).type_, old(Peek()).line, old(Peek()).column)) &&
        pos == old(pos)
    {
      var tok := Peek();
      if tok.type_ != ty {
        return Err(UnexpectedToken(ty, tok.type_, tok.line, tok.column));
      }
      pos := pos + 1;
      return Ok(tok);
    }
  }
}
