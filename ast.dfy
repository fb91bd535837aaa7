/**
 * The expression tree of src/parser.rs and its printer `pretty_print`,
 * which writes the lexemes of a tree's tokens one after another, without
 * parentheses or spaces.
 */
module Ast {
  import opened Tokens

  /** The two ways `primary` can fail. */
  datatype ParseError = MissingParenthesis | UnexpectedToken

  /** A tree owns the tokens it was built from: literals and operators. */
  datatype Expr =
    | Literal(token: Token)
    | Unary(op: Token, operand: Expr)
    | Binary(left: Expr, op: Token, right: Expr)
    | Grouping(inner: Expr)

  /** `pretty_print`: the lexemes of a tree's literal and operator tokens, in order, and nothing else. */
  function PrettyPrint(e: Expr): (s: string)
    ensures s == Lexemes(Leaves(e))
  {
    match e
    case Literal(t) =>
      assert Lexemes([t]) == t.lexeme + Lexemes([]);
      t.lexeme
    case Unary(op, x) =>
      LexemesAppend([op], Leaves(x));
      assert Lexemes([op]) == op.lexeme + Lexemes([]);
      op.lexeme + PrettyPrint(x)
    case Binary(l, op, r) =>
      LexemesAppend(Leaves(l) + [op], Leaves(r));
      LexemesAppend(Leaves(l), [op]);
      assert Lexemes([op]) == op.lexeme + Lexemes([]);
      PrettyPrint(l) + op.lexeme + PrettyPrint(r)
    case Grouping(x) => PrettyPrint(x)
  }

  /** The tokens a tree holds, left to right. */
  function Leaves(e: Expr): (r: seq<Token>)
    ensures |r| >= 1
  {
    match e
    case Literal(t) => [t]
    case Unary(op, x) => [op] + Leaves(x)
    case Binary(l, op, r) => Leaves(l) + [op] + Leaves(r)
    case Grouping(x) => Leaves(x)
  }

  /** The lexemes of `ts` written one after another. */
  function Lexemes(ts: seq<Token>): string {
    if ts == [] then "" else ts[0].lexeme + Lexemes(ts[1..])
  }

  lemma {:induction false} LexemesAppend(a: seq<Token>, b: seq<Token>)
    ensures Lexemes(a + b) == Lexemes(a) + Lexemes(b)
  {
    if a != [] {
      assert (a + b)[1..] == a[1..] + b;
      LexemesAppend(a[1..], b);
    } else {
      assert a + b == b;
    }
  }

  /** `print_literal`. */
  lemma PrintLiteral()
    ensures PrettyPrint(Literal(Token(Number("42"), "42", 1))) == "42"
  {
  }

  /** `print_unary`. */
  lemma PrintUnary()
    ensures PrettyPrint(Unary(Token(Minus, "-", 1), Literal(Token(Number("42"), "42", 1)))) == "-42"
  {
  }
}
