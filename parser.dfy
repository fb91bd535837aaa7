/**
 * The `Parser` of src/parser.rs as the cursor machine it is: an object
 * holding the token vector and the index `current`, with one method per
 * grammar rule. The binary rules run the `while` loop of the source; every
 * method is proved to return what `Grammar.Descend` says for its rule.
 */
module Parsing {
  import opened Wrappers
  import opened Tokens
  import opened Ast
  import opened Grammar

  /** The kinds each binary rule hands to `match_any_of`, in the source's order. */
  function Operators(rule: Rule): (ops: seq<TokenKind>)
    requires IsBinary(rule)
    ensures Eof !in ops
  {
    match rule
    case Equality => [BangEqual, EqualEqual]
    case Comparison => [Greater, GreaterEqual, Less, LessEqual]
    case Addition => [Plus, Minus]
    case Multiplication => [Star, Slash]
  }

  lemma OperatorsMatch(rule: Rule, k: TokenKind)
    requires IsBinary(rule)
    ensures k in Operators(rule) <==> IsOperatorOf(rule, k)
  {
  }

  class Parser {
    const tokens: seq<Token>
    var current: nat

    /** The cursor is on a token of a vector that ends with `Eof`. */
    ghost predicate Valid()
      reads this
    {
      Parsable(tokens) && current < |tokens|
    }

    constructor (tokens: seq<Token>)
      requires Parsable(tokens)
      ensures this.tokens == tokens && current == 0 && Valid()
    {
      this.tokens := tokens;
      current := 0;
    }

    /** The cursor is on the final `Eof`, the only place it stops moving. */
    function IsAtEnd(): (b: bool)
      reads this
      requires Valid()
      ensures b <==> tokens[current].kind.Eof?
      ensures current == |tokens| - 1 ==> b
    {
      Peek().kind.Eof?
    }

    /** The token at the cursor: `unwrap` panics past the end. */
    function Peek(): (t: Token)
      reads this
      requires current < |tokens|
      ensures t == tokens[current] && t in tokens
    {
      tokens[current]
    }

    /** The token before the cursor: `current - 1` underflows at the start. */
    function Previous(): (t: Token)
      reads this
      requires 0 < current <= |tokens|
      ensures t == tokens[current - 1] && t in tokens
    {
      tokens[current - 1]
    }

    /** Moves past the token at the cursor unless it is `Eof`; returns the token before the new cursor. */
    method Advance() returns (t: Token)
      requires Valid() && (current == 0 ==> !tokens[0].kind.Eof?)
      modifies this`current
      ensures Valid()
      ensures current == old(current) + (if tokens[old(current)].kind.Eof? then 0 else 1)
      ensures t == tokens[current - 1]
    {
      if !IsAtEnd() {
        current := current + 1;
      }
      t := Previous();
    }

    /** Advances when the token at the cursor has kind `kind`, returning what `advance` returns. */
    method Consume(kind: TokenKind) returns (t: Option<Token>)
      requires Valid() && (current == 0 && tokens[0].kind == kind ==> !kind.Eof?)
      modifies this`current
      ensures Valid()
      ensures tokens[old(current)].kind == kind ==>
        current == old(current) + (if kind.Eof? then 0 else 1) && t == Some(tokens[current - 1])
      ensures tokens[old(current)].kind != kind ==> current == old(current) && t == None
    {
      if Peek().kind == kind {
        var next := Advance();
        t := Some(next);
      } else {
        t := None;
      }
    }

    /** Advances when the token at the cursor has one of `kinds`, and says whether it did match. */
    method MatchAnyOf(kinds: seq<TokenKind>) returns (matched: bool)
      requires Valid() && (current == 0 && tokens[0].kind.Eof? ==> Eof !in kinds)
      modifies this`current
      ensures Valid()
      ensures matched <==> tokens[old(current)].kind in kinds
      ensures matched && !tokens[old(current)].kind.Eof? ==> current == old(current) + 1
      ensures !matched || tokens[old(current)].kind.Eof? ==> current == old(current)
    {
      if Peek().kind in kinds {
        var _ := Advance();
        matched := true;
      } else {
        matched := false;
      }
    }

    /** The `expression` rule, which is `equality`. */
    method Expression() returns (r: Outcome)
      requires Valid()
      modifies this`current
      ensures Valid()
      ensures r == Descend(tokens, Rule.Equality, old(current))
      ensures r.Done? ==> current == r.next
      decreases |tokens| - current, 6
    {
      r := Equality();
    }

    /** The `equality` rule: a left-nested chain of `!=`/`==` over `comparison`. */
    method Equality() returns (r: Outcome)
      requires Valid()
      modifies this`current
      ensures Valid()
      ensures r == Descend(tokens, Rule.Equality, old(current))
      ensures r.Done? ==> current == r.next
      decreases |tokens| - current, 5
    {
      var first := Comparison();
      ChainStart(tokens, Rule.Equality, old(current), first);
      if !first.Done? {
        return first;
      }
      var expr := first.expr;
      ghost var at: nat := current;
      var matched := MatchAnyOf(Operators(Rule.Equality));
      OperatorsMatch(Rule.Equality, tokens[at].kind);
      while matched
        invariant Valid() && at < |tokens|
        invariant Fold(tokens, Rule.Equality, expr, at) == Descend(tokens, Rule.Equality, old(current))
        invariant matched == IsOperatorOf(Rule.Equality, tokens[at].kind)
        invariant matched ==> current == at + 1
        invariant !matched ==> current == at
        decreases |tokens| - current
      {
        var operator := Previous();
        var right := Comparison();
        FoldTurn(tokens, Rule.Equality, expr, at, right);
        if !right.Done? {
          return right;
        }
        expr := Binary(expr, operator, right.expr);
        at := current;
        matched := MatchAnyOf(Operators(Rule.Equality));
        OperatorsMatch(Rule.Equality, tokens[at].kind);
      }
      FoldStop(tokens, Rule.Equality, expr, at);
      return Done(expr, current);
    }

    /** The `comparison` rule: a left-nested chain of `>`/`>=`/`<`/`<=` over `addition`. */
    method Comparison() returns (r: Outcome)
      requires Valid()
      modifies this`current
      ensures Valid()
      ensures r == Descend(tokens, Rule.Comparison, old(current))
      ensures r.Done? ==> current == r.next
      decreases |tokens| - current, 4
    {
      var first := Addition();
      ChainStart(tokens, Rule.Comparison, old(current), first);
      if !first.Done? {
        return first;
      }
      var expr := first.expr;
      ghost var at: nat := current;
      var matched := MatchAnyOf(Operators(Rule.Comparison));
      OperatorsMatch(Rule.Comparison, tokens[at].kind);
      while matched
        invariant Valid() && at < |tokens|
        invariant Fold(tokens, Rule.Comparison, expr, at) == Descend(tokens, Rule.Comparison, old(current))
        invariant matched == IsOperatorOf(Rule.Comparison, tokens[at].kind)
        invariant matched ==> current == at + 1
        invariant !matched ==> current == at
        decreases |tokens| - current
      {
        var operator := Previous();
        var right := Addition();
        FoldTurn(tokens, Rule.Comparison, expr, at, right);
        if !right.Done? {
          return right;
        }
        expr := Binary(expr, operator, right.expr);
        at := current;
        matched := MatchAnyOf(Operators(Rule.Comparison));
        OperatorsMatch(Rule.Comparison, tokens[at].kind);
      }
      FoldStop(tokens, Rule.Comparison, expr, at);
      return Done(expr, current);
    }

    /** The `addition` rule: a left-nested chain of `-`/`+` over `multiplication`. */
    method Addition() returns (r: Outcome)
      requires Valid()
      modifies this`current
      ensures Valid()
      ensures r == Descend(tokens, Rule.Addition, old(current))
      ensures r.Done? ==> current == r.next
      decreases |tokens| - current, 3
    {
      var first := Multiplication();
      ChainStart(tokens, Rule.Addition, old(current), first);
      if !first.Done? {
        return first;
      }
      var expr := first.expr;
      ghost var at: nat := current;
      var matched := MatchAnyOf(Operators(Rule.Addition));
      OperatorsMatch(Rule.Addition, tokens[at].kind);
      while matched
        invariant Valid() && at < |tokens|
        invariant Fold(tokens, Rule.Addition, expr, at) == Descend(tokens, Rule.Addition, old(current))
        invariant matched == IsOperatorOf(Rule.Addition, tokens[at].kind)
        invariant matched ==> current == at + 1
        invariant !matched ==> current == at
        decreases |tokens| - current
      {
        var operator := Previous();
        var right := Multiplication();
        FoldTurn(tokens, Rule.Addition, expr, at, right);
        if !right.Done? {
          return right;
        }
        expr := Binary(expr, operator, right.expr);
        at := current;
        matched := MatchAnyOf(Operators(Rule.Addition));
        OperatorsMatch(Rule.Addition, tokens[at].kind);
      }
      FoldStop(tokens, Rule.Addition, expr, at);
      return Done(expr, current);
    }

    /** The `multiplication` rule: a left-nested chain of `/`/`*` over `unary`. */
    method Multiplication() returns (r: Outcome)
      requires Valid()
      modifies this`current
      ensures Valid()
      ensures r == Descend(tokens, Rule.Multiplication, old(current))
      ensures r.Done? ==> current == r.next
      decreases |tokens| - current, 2
    {
      var first := Unary();
      ChainStart(tokens, Rule.Multiplication, old(current), first);
      if !first.Done? {
        return first;
      }
      var expr := first.expr;
      ghost var at: nat := current;
      var matched := MatchAnyOf(Operators(Rule.Multiplication));
      OperatorsMatch(Rule.Multiplication, tokens[at].kind);
      while matched
        invariant Valid() && at < |tokens|
        invariant Fold(tokens, Rule.Multiplication, expr, at) == Descend(tokens, Rule.Multiplication, old(current))
        invariant matched == IsOperatorOf(Rule.Multiplication, tokens[at].kind)
        invariant matched ==> current == at + 1
        invariant !matched ==> current == at
        decreases |tokens| - current
      {
        var operator := Previous();
        var right := Unary();
        FoldTurn(tokens, Rule.Multiplication, expr, at, right);
        if !right.Done? {
          return right;
        }
        expr := Binary(expr, operator, right.expr);
        at := current;
        matched := MatchAnyOf(Operators(Rule.Multiplication));
        OperatorsMatch(Rule.Multiplication, tokens[at].kind);
      }
      FoldStop(tokens, Rule.Multiplication, expr, at);
      return Done(expr, current);
    }

    /** The `unary` rule: prefix `!`/`-` operators, unwrapping `primary`'s result. */
    method Unary() returns (r: Outcome)
      requires Valid()
      modifies this`current
      ensures Valid()
      ensures r == Descend(tokens, Rule.Unary, old(current))
      ensures r.Done? ==> current == r.next
      decreases |tokens| - current, 1
    {
      if IsPrefix(Peek().kind) {
        var _ := Advance();
        var operator := Previous();
        var right := Unary();
        if !right.Done? {
          return right;
        }
        return Done(Expr.Unary(operator, right.expr), current);
      }
      var p := Primary();
      if p.Error? {
        return Abort(p.error, p.at);
      }
      return p;
    }

    /**
     * The `primary` rule: a literal, or a grouping in parentheses. The `(`
     * is consumed before the expression inside it is parsed.
     */
    method Primary() returns (r: Outcome)
      requires Valid()
      modifies this`current
      ensures Valid()
      ensures r == Descend(tokens, Rule.Primary, old(current))
      ensures r.Done? ==> current == r.next
      decreases |tokens| - current, 0
    {
      var kind := Peek().kind;
      if kind.False? || kind.True? || kind.Nil? {
        var _ := Advance();
        return Done(Literal(Previous()), current);
      } else if kind.Number? || kind.String? {
        var _ := Advance();
        return Done(Literal(Previous()), current);
      } else if kind.LeftParen? {
        var _ := Advance();
        var inner := Expression();
        if !inner.Done? {
          return inner;
        }
        var close := Consume(RightParen);
        if close.None? {
          return Error(MissingParenthesis, current);
        }
        return Done(Grouping(inner.expr), current);
      }
      return Error(UnexpectedToken, current);
    }
  }
}
