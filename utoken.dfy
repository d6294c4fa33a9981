/**
 * The lexer-facing token record of src/utils/token.py: four fields, an
 * equality that ignores the position, and a short printable form.
 */
module UtilToken {

  /** `Token(type_, value, line, column)`: the constructor stores its four arguments unchanged. */
  datatype Token = Token(type_: string, value: string, line: int, column: int)

  /** The right-hand side of `tok == other`: another Token, or any other Python object. */
  datatype Operand = TokenOperand(tok: Token) | OtherObject

  /** The part of a token that equality looks at. */
  function Key(t: Token): (string, string) {
    (t.type_, t.value)
  }

  /** `Token.__eq__`: False for a non-Token, otherwise type and value must agree. */
  function Equals(a: Token, other: Operand): (r: bool)
    ensures other.OtherObject? ==> !r
    ensures other.TokenOperand? ==> (r <==> Key(a) == Key(other.tok))
  {
    match other
    case OtherObject => false
    case TokenOperand(b) => a.type_ == b.type_ && a.value == b.value
  }

  /** `Token.__str__`: `<type: value>`. */
  function ToString(t: Token): (r: string)
    ensures |r| == |t.type_| + |t.value| + 4
    ensures r[0] == '<' && r[|r| - 1] == '>'
    ensures r[1..1 + |t.type_|] == t.type_ && r[|t.type_| + 3..|r| - 1] == t.value
    ensures r[1 + |t.type_|..|t.type_| + 3] == ": "
  {
    "<" + t.type_ + ": " + t.value + ">"
  }

  /** Two tokens that differ only in line and column are equal. */
  lemma EqualsIgnoresPosition(a: Token, line: int, column: int)
    ensures Equals(a, TokenOperand(a.(line := line, column := column)))
  {
  }

  /** Token equality is an equivalence: reflexive, symmetric and transitive. */
  lemma EqualsIsEquivalence(a: Token, b: Token, c: Token)
    ensures Equals(a, TokenOperand(a))
    ensures Equals(a, TokenOperand(b)) == Equals(b, TokenOperand(a))
    ensures Equals(a, TokenOperand(b)) && Equals(b, TokenOperand(c)) ==> Equals(a, TokenOperand(c))
  {
  }

  /** Equal tokens print the same. */
  lemma EqualTokensPrintAlike(a: Token, b: Token)
    requires Equals(a, TokenOperand(b))
    ensures ToString(a) == ToString(b)
  {
  }
}
