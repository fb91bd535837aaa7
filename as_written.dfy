/**
 * The descent exactly as src/parser.rs:169-170 writes its `(` branch:
 * `expression` is called with the cursor still on the `(`, so the descent
 * comes back to `primary` at the same token. Every call spends one unit of
 * `fuel`; `None` stands for a descent that has not returned when the fuel
 * runs out. Apart from that branch the rules are those of `Grammar.Descend`:
 * on tokens without a `(` the two agree (`AgreesWithoutParens`).
 */
module AsWritten {
  import opened Wrappers
  import opened Tokens
  import opened Ast
  import opened Grammar

  function DescendAsWritten(ts: seq<Token>, rule: Rule, i: nat, fuel: nat): (r: Option<Outcome>)
    requires Parsable(ts) && i < |ts|
    ensures r.Some? && r.value.Done? ==> i < r.value.next < |ts|
    ensures r.Some? && !r.value.Done? ==> i <= r.value.at < |ts|
    decreases fuel, 1
  {
    if fuel == 0 then None
    else if rule.Primary? then
      var k := ts[i].kind;
      if IsLiteral(k) then Some(Done(Literal(ts[i]), i + 1))
      else if k.LeftParen? then
        var inner := DescendAsWritten(ts, Equality, i, fuel - 1);
        if inner.None? || !inner.value.Done? then inner
        else if ts[inner.value.next].kind.RightParen? then Some(Done(Grouping(inner.value.expr), inner.value.next + 1))
        else Some(Error(MissingParenthesis, inner.value.next))
      else Some(Error(UnexpectedToken, i))
    else if rule.Unary? then
      if IsPrefix(ts[i].kind) then
        var operand := DescendAsWritten(ts, Rule.Unary, i + 1, fuel - 1);
        if operand.Some? && operand.value.Done? then Some(Done(Expr.Unary(ts[i], operand.value.expr), operand.value.next))
        else operand
      else
        var p := DescendAsWritten(ts, Primary, i, fuel - 1);
        if p.Some? && p.value.Error? then Some(Abort(p.value.error, p.value.at)) else p
    else
      var first := DescendAsWritten(ts, Lower(rule), i, fuel - 1);
      if first.Some? && first.value.Done? then FoldAsWritten(ts, rule, first.value.expr, first.value.next, fuel - 1)
      else first
  }

  /** The loop of a binary rule, each turn spending one unit of fuel. */
  function FoldAsWritten(ts: seq<Token>, rule: Rule, left: Expr, j: nat, fuel: nat): (r: Option<Outcome>)
    requires Parsable(ts) && IsBinary(rule) && j < |ts|
    ensures r.Some? && r.value.Done? ==> j <= r.value.next < |ts|
    ensures r.Some? && !r.value.Done? ==> j <= r.value.at < |ts|
    decreases fuel, 0
  {
    if fuel == 0 then None
    else if IsOperatorOf(rule, ts[j].kind) then
      var right := DescendAsWritten(ts, Lower(rule), j + 1, fuel - 1);
      if right.Some? && right.value.Done? then FoldAsWritten(ts, rule, Binary(left, ts[j], right.value.expr), right.value.next, fuel - 1)
      else right
    else Some(Done(left, j))
  }

  /** No `(` from position `i` on. */
  predicate NoLeftParen(ts: seq<Token>, i: nat)
    decreases |ts| - i
  {
    i >= |ts| || (!ts[i].kind.LeftParen? && NoLeftParen(ts, i + 1))
  }

  /** A stretch of tokens without `(` has none from any later position either. */
  lemma {:induction false} NoLeftParenAfter(ts: seq<Token>, i: nat, j: nat)
    requires i <= j && NoLeftParen(ts, i)
    ensures NoLeftParen(ts, j)
    decreases j - i
  {
    if i < j && i < |ts| {
      NoLeftParenAfter(ts, i + 1, j);
    }
  }

  /**
   * Without a `(` ahead, the code as written returns what the corrected
   * descent returns, given one unit of fuel per remaining token and per
   * precedence level.
   */
  lemma {:induction false} AgreesWithoutParens(ts: seq<Token>, rule: Rule, i: nat, fuel: nat)
    requires Parsable(ts) && i < |ts| && NoLeftParen(ts, i)
    requires fuel > |ts| - i + Rank(rule)
    ensures DescendAsWritten(ts, rule, i, fuel) == Some(Descend(ts, rule, i))
    decreases |ts| - i, Rank(rule), 1
  {
    if rule.Primary? {
      assert !ts[i].kind.LeftParen?;
    } else if rule.Unary? {
      if IsPrefix(ts[i].kind) {
        AgreesWithoutParens(ts, Rule.Unary, i + 1, fuel - 1);
        PrefixAgrees(ts, i, fuel);
      } else {
        AgreesWithoutParens(ts, Primary, i, fuel - 1);
        UnaryAgrees(ts, i, fuel);
      }
    } else {
      var first := Descend(ts, Lower(rule), i);
      if first.Done? {
        NoLeftParenAfter(ts, i, first.next);
        FoldAgreesWithoutParens(ts, rule, first.expr, first.next, fuel - 1);
      }
      AgreesWithoutParens(ts, Lower(rule), i, fuel - 1);
      ChainAgrees(ts, rule, i, fuel);
    }
  }

  /** The loop of a binary rule, likewise, from position `j`. */
  lemma {:induction false} FoldAgreesWithoutParens(ts: seq<Token>, rule: Rule, left: Expr, j: nat, fuel: nat)
    requires Parsable(ts)
    requires IsBinary(rule)
    requires j < |ts|
    requires NoLeftParen(ts, j)
    requires fuel > |ts| - j + Rank(rule)
    ensures FoldAsWritten(ts, rule, left, j, fuel) == Some(Fold(ts, rule, left, j))
    decreases |ts| - j, Rank(rule), 0
  {
    if IsOperatorOf(rule, ts[j].kind) {
      var right := Descend(ts, Lower(rule), j + 1);
      if right.Done? {
        NoLeftParenAfter(ts, j, right.next);
        FoldAgreesWithoutParens(ts, rule, Binary(left, ts[j], right.expr), right.next, fuel - 1);
      }
      AgreesWithoutParens(ts, Lower(rule), j + 1, fuel - 1);
      TurnAgrees(ts, rule, left, j, fuel);
    }
  }

  /** A prefix operator: agreement on the operand gives agreement on the `unary`. */
  lemma PrefixAgrees(ts: seq<Token>, i: nat, fuel: nat)
    requires Parsable(ts) && i + 1 < |ts| && fuel > 0 && IsPrefix(ts[i].kind)
    requires DescendAsWritten(ts, Rule.Unary, i + 1, fuel - 1) == Some(Descend(ts, Rule.Unary, i + 1))
    ensures DescendAsWritten(ts, Rule.Unary, i, fuel) == Some(Descend(ts, Rule.Unary, i))
  {
  }

  /** No prefix operator: agreement on `primary` gives agreement on the `unary`. */
  lemma UnaryAgrees(ts: seq<Token>, i: nat, fuel: nat)
    requires Parsable(ts) && i < |ts| && fuel > 0 && !IsPrefix(ts[i].kind)
    requires DescendAsWritten(ts, Primary, i, fuel - 1) == Some(Descend(ts, Primary, i))
    ensures DescendAsWritten(ts, Rule.Unary, i, fuel) == Some(Descend(ts, Rule.Unary, i))
  {
  }

  /** A binary rule: agreement on its first operand and on its loop gives agreement on the rule. */
  lemma ChainAgrees(ts: seq<Token>, rule: Rule, i: nat, fuel: nat)
    requires Parsable(ts) && IsBinary(rule) && i < |ts| && fuel > 0
    requires DescendAsWritten(ts, Lower(rule), i, fuel - 1) == Some(Descend(ts, Lower(rule), i))
    requires var first := Descend(ts, Lower(rule), i);
      first.Done? ==> FoldAsWritten(ts, rule, first.expr, first.next, fuel - 1) == Some(Fold(ts, rule, first.expr, first.next))
    ensures DescendAsWritten(ts, rule, i, fuel) == Some(Descend(ts, rule, i))
  {
  }

  /** An operator in the loop: agreement on its right operand and on the rest of the loop gives agreement. */
  lemma TurnAgrees(ts: seq<Token>, rule: Rule, left: Expr, j: nat, fuel: nat)
    requires Parsable(ts) && IsBinary(rule) && j + 1 < |ts| && fuel > 0 && IsOperatorOf(rule, ts[j].kind)
    requires DescendAsWritten(ts, Lower(rule), j + 1, fuel - 1) == Some(Descend(ts, Lower(rule), j + 1))
    requires var right := Descend(ts, Lower(rule), j + 1);
      right.Done? ==> FoldAsWritten(ts, rule, Binary(left, ts[j], right.expr), right.next, fuel - 1)
                      == Some(Fold(ts, rule, Binary(left, ts[j], right.expr), right.next))
    ensures FoldAsWritten(ts, rule, left, j, fuel) == Some(Fold(ts, rule, left, j))
  {
  }

  /**
   * From a `(`, the code as written never returns, whichever rule it is
   * entered by and however much fuel it is given: the `(` is never consumed.
   */
  lemma {:induction false} NeverReturns(ts: seq<Token>, rule: Rule, i: nat, fuel: nat)
    requires Parsable(ts) && i < |ts| && ts[i].kind.LeftParen?
    ensures DescendAsWritten(ts, rule, i, fuel) == None
    decreases fuel
  {
    if fuel > 0 {
      if rule.Primary? {
        NeverReturns(ts, Equality, i, fuel - 1);
      } else if rule.Unary? {
        NeverReturns(ts, Primary, i, fuel - 1);
      } else {
        NeverReturns(ts, Lower(rule), i, fuel - 1);
      }
    }
  }

  /** The input `(1)`: the code as written does not return on it, the corrected descent parses it. */
  lemma GroupedLiteral(ts: seq<Token>, fuel: nat)
    requires ts == [Token(LeftParen, "(", 1), Token(Number("1"), "1", 1), Token(RightParen, ")", 1), Token(Eof, "", 1)]
    ensures DescendAsWritten(ts, Equality, 0, fuel) == None
    ensures Descend(ts, Equality, 0) == Done(Grouping(Literal(ts[1])), 3)
  {
    NeverReturns(ts, Equality, 0, fuel);
    var e := Grouping(Literal(ts[1]));
    assert Shape(Equality, e);
    assert SpelledAt(ts, 0, e);
    DescendComplete(ts, Equality, 0, e);
  }
}
