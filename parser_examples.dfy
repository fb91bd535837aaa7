/**
 * What the parser makes of a few token vectors, as the scanner would
 * produce them for the sources in the comments.
 */
module ParserExamples {
  import opened Tokens
  import opened Ast
  import opened Grammar

  function Num(text: string): Token {
    Token(Number(text), text, 1)
  }

  /** `1 - 2 - 3`: a chain of one rule nests to the left. */
  lemma LeftNested(ts: seq<Token>)
    requires ts == [Num("1"), Token(Minus, "-", 1), Num("2"), Token(Minus, "-", 1), Num("3"), Token(Eof, "", 1)]
    ensures Descend(ts, Equality, 0) == Done(Binary(Binary(Literal(ts[0]), ts[1], Literal(ts[2])), ts[3], Literal(ts[4])), 5)
    ensures PrettyPrint(Descend(ts, Equality, 0).expr) == "1-2-3"
  {
    var e := Binary(Binary(Literal(ts[0]), ts[1], Literal(ts[2])), ts[3], Literal(ts[4]));
    assert Shape(Equality, e);
    assert SpelledAt(ts, 0, e);
    DescendComplete(ts, Equality, 0, e);
  }

  /** `1 + 2 * 3`: the operator of the lower rule binds tighter. */
  lemma Precedence(ts: seq<Token>)
    requires ts == [Num("1"), Token(Plus, "+", 1), Num("2"), Token(Star, "*", 1), Num("3"), Token(Eof, "", 1)]
    ensures Descend(ts, Equality, 0) == Done(Binary(Literal(ts[0]), ts[1], Binary(Literal(ts[2]), ts[3], Literal(ts[4]))), 5)
  {
    var e := Binary(Literal(ts[0]), ts[1], Binary(Literal(ts[2]), ts[3], Literal(ts[4])));
    assert Shape(Equality, e);
    assert SpelledAt(ts, 0, e);
    DescendComplete(ts, Equality, 0, e);
  }

  /** `!-1`: prefix operators nest to the right. */
  lemma PrefixesNest(ts: seq<Token>)
    requires ts == [Token(Bang, "!", 1), Token(Minus, "-", 1), Num("1"), Token(Eof, "", 1)]
    ensures Descend(ts, Equality, 0) == Done(Expr.Unary(ts[0], Expr.Unary(ts[1], Literal(ts[2]))), 3)
  {
    var e := Expr.Unary(ts[0], Expr.Unary(ts[1], Literal(ts[2])));
    assert Shape(Equality, e);
    assert SpelledAt(ts, 0, e);
    DescendComplete(ts, Equality, 0, e);
  }

  /** `(1 == 2) * 3`: a grouping is an operand, and printing drops its brackets. */
  lemma GroupedOperand(ts: seq<Token>)
    requires ts == [Token(LeftParen, "(", 1), Num("1"), Token(EqualEqual, "==", 1), Num("2"), Token(RightParen, ")", 1),
                    Token(Star, "*", 1), Num("3"), Token(Eof, "", 1)]
    ensures Descend(ts, Equality, 0) == Done(Binary(Grouping(Binary(Literal(ts[1]), ts[2], Literal(ts[3]))), ts[5], Literal(ts[6])), 7)
    ensures PrettyPrint(Descend(ts, Equality, 0).expr) == "1==2*3"
  {
    var e := Binary(Grouping(Binary(Literal(ts[1]), ts[2], Literal(ts[3]))), ts[5], Literal(ts[6]));
    assert Shape(Equality, e);
    assert SpelledAt(ts, 0, e);
    DescendComplete(ts, Equality, 0, e);
  }

  /** `(1`: `primary` finds no `)` where the inner expression ends, and `unary` panics. */
  lemma MissingParenthesisAborts(ts: seq<Token>)
    requires ts == [Token(LeftParen, "(", 1), Num("1"), Token(Eof, "", 1)]
    ensures Descend(ts, Primary, 0) == Error(MissingParenthesis, 2)
    ensures Descend(ts, Equality, 0) == Abort(MissingParenthesis, 2)
  {
    DescendComplete(ts, Equality, 1, Literal(ts[1]));
    assert Descend(ts, Primary, 0) == Error(MissingParenthesis, 2);
    assert Descend(ts, Rule.Unary, 0) == Abort(MissingParenthesis, 2);
    assert Descend(ts, Multiplication, 0) == Abort(MissingParenthesis, 2);
    assert Descend(ts, Addition, 0) == Abort(MissingParenthesis, 2);
    assert Descend(ts, Comparison, 0) == Abort(MissingParenthesis, 2);
  }

  /** An empty source scans to a lone `Eof`, from which no expression can start. */
  lemma EofAborts(ts: seq<Token>)
    requires ts == [Token(Eof, "", 1)]
    ensures Descend(ts, Primary, 0) == Error(UnexpectedToken, 0)
    ensures Descend(ts, Equality, 0) == Abort(UnexpectedToken, 0)
  {
    NoOperand(ts, Primary, 0);
    NoOperand(ts, Equality, 0);
  }

  /** `1 2`: the parse stops before a token that cannot continue it and leaves it unconsumed. */
  lemma StopsBeforeTrailingToken(ts: seq<Token>)
    requires ts == [Num("1"), Num("2"), Token(Eof, "", 1)]
    ensures Descend(ts, Equality, 0) == Done(Literal(ts[0]), 1)
  {
    DescendComplete(ts, Equality, 0, Literal(ts[0]));
  }
}
