/**
 * The expression grammar of src/parser.rs (its doc comment at lines 22-32)
 * as a functional specification of what each rule's method returns and
 * where it leaves the cursor. There are seven rules, loosest first:
 * `expression` is `equality` itself, four binary rules each fold a
 * left-nested chain of their operators over the next rule, `unary` takes
 * prefix operators, and `primary` takes literals and groupings. `Rule`
 * names them, `IsOperatorOf` gives each binary rule its operators, and
 * `Shape` defines the trees each rule derives.
 */
module Grammar {
  import opened Tokens
  import opened Ast

  /** The grammar rules below `expression`, which is `equality` itself. */
  datatype Rule = Equality | Comparison | Addition | Multiplication | Unary | Primary

  /** How tightly a rule binds: `primary` is the innermost. */
  function Rank(rule: Rule): nat {
    match rule
    case Equality => 5
    case Comparison => 4
    case Addition => 3
    case Multiplication => 2
    case Unary => 1
    case Primary => 0
  }

  /** The four rules that fold a left-nested chain of binary operators. */
  predicate IsBinary(rule: Rule) {
    rule != Rule.Unary && rule != Primary
  }

  /** The rule a binary rule takes its operands from. */
  function Lower(rule: Rule): (r: Rule)
    requires IsBinary(rule)
    ensures Rank(r) + 1 == Rank(rule)
  {
    match rule
    case Equality => Comparison
    case Comparison => Addition
    case Addition => Multiplication
    case Multiplication => Rule.Unary
  }

  /**
   * The rank of the binary rule whose loop matches `k` (`match_any_of` at
   * lines 92, 105-110, 123, 136), and 0 for a token no loop matches.
   */
  function Level(k: TokenKind): nat {
    if k.BangEqual? || k.EqualEqual? then 5
    else if k.Greater? || k.GreaterEqual? || k.Less? || k.LessEqual? then 4
    else if k.Plus? || k.Minus? then 3
    else if k.Star? || k.Slash? then 2
    else 0
  }

  /** The operators a binary rule's loop matches. */
  predicate IsOperatorOf(rule: Rule, k: TokenKind) {
    IsBinary(rule) && Level(k) == Rank(rule)
  }

  /** The tokens `primary` turns into a literal. */
  predicate IsLiteral(k: TokenKind) {
    k.False? || k.True? || k.Nil? || k.Number? || k.String?
  }

  /** The prefix operators of `unary`. */
  predicate IsPrefix(k: TokenKind) {
    k.Bang? || k.Minus?
  }

  /**
   * The token vectors the parser can work on: `peek` unwraps
   * `tokens.get(current)`, and only an `Eof` at the end keeps `advance`
   * from running past the last token. The scanner always ends with one.
   */
  predicate Parsable(ts: seq<Token>) {
    |ts| > 0 && ts[|ts| - 1].kind.Eof?
  }

  /**
   * What a rule's method does: return a tree and leave the cursor at
   * `next`; return `primary`'s `Err` value with the cursor at `at`; or
   * panic at `at` when `unary` unwraps such an `Err`.
   */
  datatype Outcome =
    | Done(expr: Expr, next: nat)
    | Error(error: ParseError, at: nat)
    | Abort(error: ParseError, at: nat)

  /**
   * The outcome of the method for `rule` called with the cursor at `i`.
   * A tree always consumes at least one token and never the final `Eof`;
   * only `primary` returns an error, every other rule panics instead.
   * The `(` of a grouping is consumed before its expression, as line 32
   * of the grammar requires.
   */
  function Descend(ts: seq<Token>, rule: Rule, i: nat): (r: Outcome)
    requires Parsable(ts) && i < |ts|
    ensures r.Done? ==> i < r.next < |ts|
    ensures !r.Done? ==> i <= r.at < |ts|
    ensures r.Error? ==> rule == Primary
    decreases |ts| - i, Rank(rule), 1
  {
    if rule.Primary? then
      var k := ts[i].kind;
      if IsLiteral(k) then Done(Literal(ts[i]), i + 1)
      else if k.LeftParen? then
        var inner := Descend(ts, Equality, i + 1);
        if !inner.Done? then inner
        else if ts[inner.next].kind.RightParen? then Done(Grouping(inner.expr), inner.next + 1)
        else Error(MissingParenthesis, inner.next)
      else Error(UnexpectedToken, i)
    else if rule.Unary? then
      if IsPrefix(ts[i].kind) then
        var operand := Descend(ts, Rule.Unary, i + 1);
        if operand.Done? then Done(Expr.Unary(ts[i], operand.expr), operand.next) else operand
      else
        var p := Descend(ts, Primary, i);
        if p.Error? then Abort(p.error, p.at) else p
    else
      var first := Descend(ts, Lower(rule), i);
      if first.Done? then Fold(ts, rule, first.expr, first.next) else first
  }

  /** The `while self.match_any_of(...)` loop of a binary rule, with `left` built so far and the cursor at `j`. */
  function Fold(ts: seq<Token>, rule: Rule, left: Expr, j: nat): (r: Outcome)
    requires Parsable(ts) && IsBinary(rule) && j < |ts|
    ensures r.Done? ==> j <= r.next < |ts|
    ensures !r.Done? ==> j <= r.at < |ts|
    ensures !r.Error?
    decreases |ts| - j, Rank(rule), 0
  {
    if IsOperatorOf(rule, ts[j].kind) then
      var right := Descend(ts, Lower(rule), j + 1);
      if right.Done? then Fold(ts, rule, Binary(left, ts[j], right.expr), right.next) else right
    else Done(left, j)
  }

  /** The tokens a tree is spelled with: its own, plus a pair of brackets around each grouping. */
  function Width(e: Expr): (w: nat)
    ensures w >= 1
  {
    match e
    case Literal(_) => 1
    case Unary(_, x) => 1 + Width(x)
    case Binary(l, _, r) => Width(l) + 1 + Width(r)
    case Grouping(x) => Width(x) + 2
  }

  /** `ts` spells `e` from `i` on: its tokens in order, each grouping between `(` and `)`. */
  predicate SpelledAt(ts: seq<Token>, i: nat, e: Expr)
    decreases e
  {
    i + Width(e) <= |ts| &&
    match e
    case Literal(t) => ts[i] == t
    case Unary(op, x) => ts[i] == op && SpelledAt(ts, i + 1, x)
    case Binary(l, op, r) => SpelledAt(ts, i, l) && ts[i + Width(l)] == op && SpelledAt(ts, i + Width(l) + 1, r)
    case Grouping(x) => ts[i].kind.LeftParen? && SpelledAt(ts, i + 1, x) && ts[i + 1 + Width(x)].kind.RightParen?
  }

  /**
   * The trees a rule derives. A binary node of a rule has that rule's
   * operator, a left operand of the same rule and a right operand of the
   * rule below, which makes chains nest to the left; a prefix operand is
   * again a `unary`, which makes prefixes nest to the right; a grouping
   * holds a whole expression.
   */
  predicate Shape(rule: Rule, e: Expr)
    decreases e, Rank(rule)
  {
    if rule.Primary? then
      (e.Literal? && IsLiteral(e.token.kind)) || (e.Grouping? && Shape(Equality, e.inner))
    else if rule.Unary? then
      if e.Unary? then IsPrefix(e.op.kind) && Shape(Rule.Unary, e.operand) else Shape(Primary, e)
    else
      if e.Binary? && IsOperatorOf(rule, e.op.kind) then Shape(rule, e.left) && Shape(Lower(rule), e.right)
      else Shape(Lower(rule), e)
  }

  /** A token after which a rule's tree cannot go on: no operator of that rule or of any rule below it. */
  predicate Stops(rule: Rule, k: TokenKind) {
    Level(k) == 0 || Level(k) > Rank(rule)
  }

  /** Neither `unary` nor `primary` derives a binary node itself. */
  lemma BinaryNotUnary(e: Expr)
    requires e.Binary?
    ensures !Shape(Rule.Unary, e) && !Shape(Primary, e)
  {
  }

  /** A binary node a rule derives carries an operator of that rule or of one below it. */
  lemma {:induction false} ShapeOperator(rule: Rule, e: Expr, above: Rule)
    requires Shape(rule, e) && e.Binary? && Rank(above) > Rank(rule)
    ensures !IsOperatorOf(above, e.op.kind)
    decreases Rank(rule)
  {
    BinaryNotUnary(e);
    if !IsOperatorOf(rule, e.op.kind) {
      ShapeOperator(Lower(rule), e, above);
    }
  }

  /** Every tree of a lower rule is a tree of the binary rule above it. */
  lemma ShapeLift(rule: Rule, e: Expr)
    requires IsBinary(rule) && Shape(Lower(rule), e)
    ensures Shape(rule, e)
  {
    if e.Binary? {
      ShapeOperator(Lower(rule), e, rule);
    }
  }

  /**
   * `r` is a tree `rule` derives, spelled by the tokens from `i` up to
   * `r.next`, where a token follows that cannot continue it.
   */
  predicate Derives(ts: seq<Token>, rule: Rule, i: nat, r: Outcome) {
    r.Done? ==>
      && Shape(rule, r.expr) && SpelledAt(ts, i, r.expr) && r.next == i + Width(r.expr)
      && r.next < |ts| && Stops(rule, ts[r.next].kind)
  }

  /**
   * Soundness: a tree a rule returns is one that rule derives, spelled by
   * exactly the tokens consumed, and the parse stops at a token that
   * cannot continue it.
   */
  lemma {:induction false} DescendSound(ts: seq<Token>, rule: Rule, i: nat)
    requires Parsable(ts) && i < |ts|
    ensures Derives(ts, rule, i, Descend(ts, rule, i))
    decreases |ts| - i, Rank(rule), 1
  {
    if rule.Primary? {
      if ts[i].kind.LeftParen? {
        DescendSound(ts, Equality, i + 1);
        GroupingSound(ts, i);
      }
    } else if rule.Unary? {
      if IsPrefix(ts[i].kind) {
        DescendSound(ts, Rule.Unary, i + 1);
        PrefixSound(ts, i);
      } else {
        DescendSound(ts, Primary, i);
      }
    } else {
      var first := Descend(ts, Lower(rule), i);
      DescendSound(ts, Lower(rule), i);
      if first.Done? {
        ShapeLift(rule, first.expr);
        FoldSound(ts, rule, i, first.expr, first.next);
      }
    }
  }

  /** The `(` step of soundness, given soundness of the expression inside. */
  lemma GroupingSound(ts: seq<Token>, i: nat)
    requires Parsable(ts) && i < |ts| && ts[i].kind.LeftParen?
    requires Derives(ts, Equality, i + 1, Descend(ts, Equality, i + 1))
    ensures Derives(ts, Primary, i, Descend(ts, Primary, i))
  {
  }

  /** The prefix step of soundness, given soundness of the operand. */
  lemma PrefixSound(ts: seq<Token>, i: nat)
    requires Parsable(ts) && i < |ts| && IsPrefix(ts[i].kind)
    requires Derives(ts, Rule.Unary, i + 1, Descend(ts, Rule.Unary, i + 1))
    ensures Derives(ts, Rule.Unary, i, Descend(ts, Rule.Unary, i))
  {
  }

  lemma {:induction false} FoldSound(ts: seq<Token>, rule: Rule, s: nat, left: Expr, j: nat)
    requires Parsable(ts) && IsBinary(rule) && j < |ts|
    requires Shape(rule, left) && SpelledAt(ts, s, left) && j == s + Width(left) && Stops(Lower(rule), ts[j].kind)
    ensures Derives(ts, rule, s, Fold(ts, rule, left, j))
    decreases |ts| - j, Rank(rule), 0
  {
    if IsOperatorOf(rule, ts[j].kind) {
      var right := Descend(ts, Lower(rule), j + 1);
      DescendSound(ts, Lower(rule), j + 1);
      FoldTurn(ts, rule, left, j, right);
      if right.Done? {
        BinaryDerived(ts, rule, s, left, j, right.expr, right.next);
        FoldSound(ts, rule, s, Binary(left, ts[j], right.expr), right.next);
      }
    } else {
      FoldStop(ts, rule, left, j);
    }
  }

  /** A binary rule starts with an operand of the rule below, then runs its loop. */
  lemma ChainStart(ts: seq<Token>, rule: Rule, i: nat, first: Outcome)
    requires Parsable(ts) && IsBinary(rule) && i < |ts| && first == Descend(ts, Lower(rule), i)
    ensures first.Done? ==> Descend(ts, rule, i) == Fold(ts, rule, first.expr, first.next)
    ensures !first.Done? ==> Descend(ts, rule, i) == first
  {
  }

  /** A binary rule's loop stops at a token that is not one of its operators. */
  lemma FoldStop(ts: seq<Token>, rule: Rule, left: Expr, j: nat)
    requires Parsable(ts) && IsBinary(rule) && j < |ts| && !IsOperatorOf(rule, ts[j].kind)
    ensures Fold(ts, rule, left, j) == Done(left, j)
  {
  }

  /** One turn of a binary rule's loop: the operand after an operator, then the rest of the loop. */
  lemma FoldTurn(ts: seq<Token>, rule: Rule, left: Expr, j: nat, right: Outcome)
    requires Parsable(ts) && IsBinary(rule) && j < |ts| && IsOperatorOf(rule, ts[j].kind)
    requires right == Descend(ts, Lower(rule), j + 1)
    ensures right.Done? ==> Fold(ts, rule, left, j) == Fold(ts, rule, Binary(left, ts[j], right.expr), right.next)
    ensures !right.Done? ==> Fold(ts, rule, left, j) == right
  {
  }

  /** One turn of a binary rule's loop adds a node that rule derives, spelled by the tokens consumed. */
  lemma BinaryDerived(ts: seq<Token>, rule: Rule, s: nat, left: Expr, j: nat, right: Expr, n: nat)
    requires IsBinary(rule) && Shape(rule, left) && SpelledAt(ts, s, left) && j == s + Width(left) && j < |ts|
    requires IsOperatorOf(rule, ts[j].kind) && Shape(Lower(rule), right) && SpelledAt(ts, j + 1, right) && n == j + 1 + Width(right)
    ensures Shape(rule, Binary(left, ts[j], right)) && SpelledAt(ts, s, Binary(left, ts[j], right))
    ensures n == s + Width(Binary(left, ts[j], right))
  {
  }

  /**
   * Completeness: from the first token of a tree a rule derives, followed
   * by a token that cannot continue it, the rule returns exactly that tree.
   */
  lemma {:induction false} DescendComplete(ts: seq<Token>, rule: Rule, i: nat, e: Expr)
    requires Parsable(ts) && Shape(rule, e) && SpelledAt(ts, i, e)
    requires i + Width(e) < |ts| && Stops(rule, ts[i + Width(e)].kind)
    ensures Descend(ts, rule, i) == Done(e, i + Width(e))
    decreases e, Rank(rule), 2
  {
    if rule.Primary? {
      PrimaryComplete(ts, i, e);
    } else if rule.Unary? {
      UnaryComplete(ts, i, e);
    } else {
      ChainComplete(ts, rule, i, e);
      FoldEnds(ts, rule, e, i + Width(e));
    }
  }

  /** Completeness of `primary`: a literal, or a grouping around a whole expression. */
  lemma {:induction false} PrimaryComplete(ts: seq<Token>, i: nat, e: Expr)
    requires Parsable(ts) && Shape(Primary, e) && SpelledAt(ts, i, e) && i + Width(e) < |ts|
    ensures Descend(ts, Primary, i) == Done(e, i + Width(e))
    decreases e, Rank(Primary), 1
  {
    if e.Grouping? {
      DescendComplete(ts, Equality, i + 1, e.inner);
    }
  }

  /** Completeness of `unary`: a prefix operator before a `unary`, or a `primary`. */
  lemma {:induction false} UnaryComplete(ts: seq<Token>, i: nat, e: Expr)
    requires Parsable(ts) && Shape(Rule.Unary, e) && SpelledAt(ts, i, e) && i + Width(e) < |ts|
    ensures Descend(ts, Rule.Unary, i) == Done(e, i + Width(e))
    decreases e, Rank(Rule.Unary), 1
  {
    if e.Unary? {
      DescendComplete(ts, Rule.Unary, i + 1, e.operand);
    } else {
      DescendComplete(ts, Primary, i, e);
    }
  }

  /** A binary rule's loop ends at a token that is not one of its operators. */
  lemma FoldEnds(ts: seq<Token>, rule: Rule, e: Expr, n: nat)
    requires Parsable(ts) && IsBinary(rule) && n < |ts| && Stops(rule, ts[n].kind)
    ensures Fold(ts, rule, e, n) == Done(e, n)
  {
  }

  /** Descending into a binary rule from a tree's first token folds up to that tree and goes on from its end. */
  lemma {:induction false} ChainComplete(ts: seq<Token>, rule: Rule, i: nat, e: Expr)
    requires Parsable(ts) && IsBinary(rule) && Shape(rule, e) && SpelledAt(ts, i, e)
    requires i + Width(e) < |ts| && Stops(Lower(rule), ts[i + Width(e)].kind)
    ensures Descend(ts, rule, i) == Fold(ts, rule, e, i + Width(e))
    decreases e, Rank(rule), 1
  {
    if e.Binary? && IsOperatorOf(rule, e.op.kind) {
      ChainBinary(ts, rule, i, e);
    } else {
      DescendComplete(ts, Lower(rule), i, e);
    }
  }

  /** The chain up to a node of the rule's own operator: its left operand's chain, one more turn. */
  lemma {:induction false} ChainBinary(ts: seq<Token>, rule: Rule, i: nat, e: Expr)
    requires Parsable(ts) && IsBinary(rule) && Shape(rule, e) && SpelledAt(ts, i, e)
    requires e.Binary? && IsOperatorOf(rule, e.op.kind)
    requires i + Width(e) < |ts| && Stops(Lower(rule), ts[i + Width(e)].kind)
    ensures Descend(ts, rule, i) == Fold(ts, rule, e, i + Width(e))
    decreases e, Rank(rule), 0
  {
    var j := i + Width(e.left);
    BinaryParts(ts, rule, i, e);
    DescendComplete(ts, Lower(rule), j + 1, e.right);
    ChainComplete(ts, rule, i, e.left);
    FoldStep(ts, rule, e, j, i + Width(e));
  }

  /**
   * A binary node of a rule, spelled at `i` and followed by a token that
   * ends the rule's operands, splits into a left operand of the rule ended
   * by the operator and a right operand of the next rule ended there too.
   */
  lemma BinaryParts(ts: seq<Token>, rule: Rule, i: nat, e: Expr)
    requires IsBinary(rule) && Shape(rule, e) && SpelledAt(ts, i, e) && e.Binary? && IsOperatorOf(rule, e.op.kind)
    requires i + Width(e) < |ts| && Stops(Lower(rule), ts[i + Width(e)].kind)
    ensures var j := i + Width(e.left);
      && Shape(rule, e.left) && SpelledAt(ts, i, e.left)
      && j < |ts| && Stops(Lower(rule), ts[j].kind) && ts[j] == e.op
      && Shape(Lower(rule), e.right) && SpelledAt(ts, j + 1, e.right)
      && j + 1 + Width(e.right) == i + Width(e)
  {
    var j := i + Width(e.left);
    assert ts[j] == e.op;
    assert Level(e.op.kind) > Rank(Lower(rule));
  }

  /** One turn of a binary rule's loop, when the operand after the operator parses. */
  lemma FoldStep(ts: seq<Token>, rule: Rule, e: Expr, j: nat, n: nat)
    requires Parsable(ts) && IsBinary(rule) && e.Binary? && j < |ts| && ts[j] == e.op && IsOperatorOf(rule, e.op.kind)
    requires Descend(ts, Lower(rule), j + 1) == Done(e.right, n)
    ensures Fold(ts, rule, e.left, j) == Fold(ts, rule, e, n)
  {
    assert Binary(e.left, ts[j], e.right) == e;
  }

  /**
   * The parser is unambiguous and accepts exactly the grammar: a rule
   * returns a tree precisely when the tokens from its cursor spell a tree
   * that rule derives, followed by a token that cannot continue it.
   */
  lemma ParseIff(ts: seq<Token>, rule: Rule, i: nat, e: Expr, n: nat)
    requires Parsable(ts) && i < |ts|
    ensures Descend(ts, rule, i) == Done(e, n) <==>
      n == i + Width(e) && n < |ts| && Shape(rule, e) && SpelledAt(ts, i, e) && Stops(rule, ts[n].kind)
  {
    DescendSound(ts, rule, i);
    if n == i + Width(e) && n < |ts| && Shape(rule, e) && SpelledAt(ts, i, e) && Stops(rule, ts[n].kind) {
      DescendComplete(ts, rule, i, e);
    }
  }

  /**
   * From a token that starts no operand (not a literal, not `(`, and for
   * `unary` and above not a prefix operator, `Eof` included) `primary`
   * returns `UnexpectedToken` and every other rule panics with it, the
   * cursor not moved.
   */
  lemma {:induction false} NoOperand(ts: seq<Token>, rule: Rule, i: nat)
    requires Parsable(ts) && i < |ts|
    requires !IsLiteral(ts[i].kind) && !ts[i].kind.LeftParen? && (rule != Primary ==> !IsPrefix(ts[i].kind))
    ensures Descend(ts, rule, i) == if rule == Primary then Error(UnexpectedToken, i) else Abort(UnexpectedToken, i)
    decreases Rank(rule)
  {
    if IsBinary(rule) {
      NoOperand(ts, Lower(rule), i);
    } else if rule == Rule.Unary {
      NoOperand(ts, Primary, i);
    }
  }

  /** The parts of `ts[i..j]` that are not brackets, in order. */
  function Unbracketed(ts: seq<Token>, i: nat, j: nat): seq<Token>
    requires i <= j <= |ts|
    decreases j - i
  {
    if i == j then []
    else Unbracketed(ts, i, j - 1) + (if ts[j - 1].kind.LeftParen? || ts[j - 1].kind.RightParen? then [] else [ts[j - 1]])
  }

  lemma {:induction false} UnbracketedSplit(ts: seq<Token>, i: nat, j: nat, k: nat)
    requires i <= j <= k <= |ts|
    ensures Unbracketed(ts, i, k) == Unbracketed(ts, i, j) + Unbracketed(ts, j, k)
    decreases k - j
  {
    if j < k {
      UnbracketedSplit(ts, i, j, k - 1);
    }
  }

  /** `e` holds no bracket token. */
  predicate BracketFree(e: Expr) {
    match e
    case Literal(t) => !t.kind.LeftParen? && !t.kind.RightParen?
    case Unary(op, x) => !op.kind.LeftParen? && !op.kind.RightParen? && BracketFree(x)
    case Binary(l, op, r) => BracketFree(l) && !op.kind.LeftParen? && !op.kind.RightParen? && BracketFree(r)
    case Grouping(x) => BracketFree(x)
  }

  /** Literals and operators are never brackets. */
  lemma {:induction false} ShapeBracketFree(rule: Rule, e: Expr)
    requires Shape(rule, e)
    ensures BracketFree(e)
    decreases e, Rank(rule)
  {
    if rule.Primary? {
      if e.Grouping? {
        ShapeBracketFree(Equality, e.inner);
      }
    } else if rule.Unary? {
      if e.Unary? {
        ShapeBracketFree(Rule.Unary, e.operand);
      } else {
        ShapeBracketFree(Primary, e);
      }
    } else {
      if e.Binary? && IsOperatorOf(rule, e.op.kind) {
        ShapeBracketFree(rule, e.left);
        ShapeBracketFree(Lower(rule), e.right);
      } else {
        ShapeBracketFree(Lower(rule), e);
      }
    }
  }

  /** The tokens of a spelled tree are the tokens spelling it, brackets left out. */
  lemma {:induction false} SpelledLeaves(ts: seq<Token>, i: nat, e: Expr)
    requires SpelledAt(ts, i, e) && BracketFree(e)
    ensures Leaves(e) == Unbracketed(ts, i, i + Width(e))
    decreases e
  {
    if e.Literal? {
      UnbracketedAround(ts, i, i, i + 1);
    } else if e.Unary? {
      SpelledLeaves(ts, i + 1, e.operand);
      LeavesUnary(ts, i, e);
    } else if e.Binary? {
      SpelledLeaves(ts, i, e.left);
      SpelledLeaves(ts, i + Width(e.left) + 1, e.right);
      LeavesBinary(ts, i, e);
    } else {
      SpelledLeaves(ts, i + 1, e.inner);
      UnbracketedInside(ts, i, i + Width(e) - 1);
    }
  }

  lemma LeavesUnary(ts: seq<Token>, i: nat, e: Expr)
    requires e.Unary? && SpelledAt(ts, i, e) && BracketFree(e)
    requires Leaves(e.operand) == Unbracketed(ts, i + 1, i + Width(e))
    ensures Leaves(e) == Unbracketed(ts, i, i + Width(e))
  {
    UnbracketedAround(ts, i, i, i + Width(e));
    assert ts[i] == e.op && Unbracketed(ts, i, i) == [];
    assert [] + [e.op] == [e.op];
  }

  lemma LeavesBinary(ts: seq<Token>, i: nat, e: Expr)
    requires e.Binary? && SpelledAt(ts, i, e) && BracketFree(e)
    requires Leaves(e.left) == Unbracketed(ts, i, i + Width(e.left))
    requires Leaves(e.right) == Unbracketed(ts, i + Width(e.left) + 1, i + Width(e))
    ensures Leaves(e) == Unbracketed(ts, i, i + Width(e))
  {
    var j := i + Width(e.left);
    assert ts[j] == e.op && !e.op.kind.LeftParen? && !e.op.kind.RightParen?;
    assert j + 1 + Width(e.right) == i + Width(e);
    UnbracketedAround(ts, i, j, i + Width(e));
    assert Leaves(e) == Leaves(e.left) + [e.op] + Leaves(e.right);
  }

  /** Around a token that is not a bracket, the parts left and right of it are kept with it in between. */
  lemma UnbracketedAround(ts: seq<Token>, i: nat, j: nat, k: nat)
    requires i <= j < k <= |ts| && !ts[j].kind.LeftParen? && !ts[j].kind.RightParen?
    ensures Unbracketed(ts, i, k) == Unbracketed(ts, i, j) + [ts[j]] + Unbracketed(ts, j + 1, k)
  {
    UnbracketedSplit(ts, i, j, k);
    UnbracketedSplit(ts, j, j + 1, k);
    assert Unbracketed(ts, j, j + 1) == Unbracketed(ts, j, j) + [ts[j]];
  }

  /** Between two brackets, only the inside is kept. */
  lemma UnbracketedInside(ts: seq<Token>, i: nat, j: nat)
    requires i < j < |ts| && ts[i].kind.LeftParen? && ts[j].kind.RightParen?
    ensures Unbracketed(ts, i, j + 1) == Unbracketed(ts, i + 1, j)
  {
    UnbracketedDropFirst(ts, i, j + 1);
    UnbracketedDropLast(ts, i + 1, j + 1);
  }

  /** A bracket at the front is left out. */
  lemma UnbracketedDropFirst(ts: seq<Token>, i: nat, k: nat)
    requires i < k <= |ts| && (ts[i].kind.LeftParen? || ts[i].kind.RightParen?)
    ensures Unbracketed(ts, i, k) == Unbracketed(ts, i + 1, k)
  {
    UnbracketedSplit(ts, i, i + 1, k);
    var first := Unbracketed(ts, i, i + 1);
    assert first == Unbracketed(ts, i, i) + [];
    assert first + Unbracketed(ts, i + 1, k) == Unbracketed(ts, i + 1, k);
  }

  /** A bracket at the back is left out. */
  lemma UnbracketedDropLast(ts: seq<Token>, i: nat, k: nat)
    requires i < k <= |ts| && (ts[k - 1].kind.LeftParen? || ts[k - 1].kind.RightParen?)
    ensures Unbracketed(ts, i, k) == Unbracketed(ts, i, k - 1)
  {
    assert Unbracketed(ts, i, k) == Unbracketed(ts, i, k - 1) + [];
  }

  /**
   * `pretty_print` of a parsed tree writes the lexemes of the tokens the
   * parse consumed, in order, leaving out the brackets.
   */
  lemma PrintsConsumed(ts: seq<Token>, rule: Rule, i: nat)
    requires Parsable(ts) && i < |ts| && Descend(ts, rule, i).Done?
    ensures PrettyPrint(Descend(ts, rule, i).expr) == Lexemes(Unbracketed(ts, i, Descend(ts, rule, i).next))
  {
    DescendSound(ts, rule, i);
    ShapeBracketFree(rule, Descend(ts, rule, i).expr);
    SpelledLeaves(ts, i, Descend(ts, rule, i).expr);
  }

  /** Without brackets, nothing is left out. */
  lemma {:induction false} UnbracketedPlain(ts: seq<Token>, i: nat, j: nat)
    requires i <= j <= |ts|
    requires forall k :: i <= k < j ==> !ts[k].kind.LeftParen? && !ts[k].kind.RightParen?
    ensures Unbracketed(ts, i, j) == ts[i..j]
    decreases j - i
  {
    if i < j {
      UnbracketedPlain(ts, i, j - 1);
      assert ts[i..j] == ts[i..j - 1] + [ts[j - 1]];
    }
  }

  /**
   * For tokens without brackets, `pretty_print` of the parsed tree equals
   * the concatenation of the lexemes of the tokens consumed.
   */
  lemma PrintsConsumedPlain(ts: seq<Token>, rule: Rule, i: nat)
    requires Parsable(ts) && i < |ts| && Descend(ts, rule, i).Done?
    requires forall k :: i <= k < |ts| ==> !ts[k].kind.LeftParen? && !ts[k].kind.RightParen?
    ensures PrettyPrint(Descend(ts, rule, i).expr) == Lexemes(ts[i..Descend(ts, rule, i).next])
  {
    PrintsConsumed(ts, rule, i);
    UnbracketedPlain(ts, i, Descend(ts, rule, i).next);
  }
}
