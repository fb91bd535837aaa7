/**
 * The scanner of src/scanner.rs as the cursor machine it is: a `Scanner`
 * object whose methods move `start` and `current` over the source, count
 * lines, raise `hadErrors` and push onto `tokens`. Every method is proved
 * to do what the functional specification in `LexerSpec` says.
 */
module Lexer {
  import opened Wrappers
  import opened Tokens
  import opened LexerSpec

  class Scanner {
    const source: string
    var tokens: seq<Token>
    var hadErrors: bool
    /** Start of the lexeme being scanned. */
    var start: nat
    var current: nat
    var line: nat
    /** What `error` prints, kept as data instead of being printed. */
    ghost var diagnostics: seq<Diagnostic>

    /**
     * The cursor lies inside the source, the lexeme start is not past it,
     * and the line counter is one more than the newlines consumed so far.
     */
    ghost predicate Valid()
      reads this
    {
      start <= current <= |source| && line == 1 + Lines(source, 0, current)
    }

    constructor (source: string)
      ensures this.source == source && tokens == [] && !hadErrors && diagnostics == []
      ensures start == 0 && current == 0 && line == 1
      ensures Valid()
    {
      this.source := source;
      tokens := [];
      hadErrors := false;
      start := 0;
      current := 0;
      line := 1;
      diagnostics := [];
    }

    /** Scans the rest of the source, then appends `Eof` at the final line. */
    method ScanTokens()
      requires Valid()
      modifies this
      ensures Valid() && current == |source|
      ensures var r := ScanFrom(source, old(current), old(line));
        && tokens == old(tokens) + r.tokens + [EofToken(r.line)]
        && line == r.line
        && diagnostics == old(diagnostics) + r.diagnostics
        && hadErrors == (old(hadErrors) || r.diagnostics != [])
    {
      ghost var r := ScanFrom(source, current, line);
      ghost var scanned: seq<Token>, reported: seq<Diagnostic> := [], [];
      while !IsAtEnd()
        invariant Valid()
        invariant var rest := ScanFrom(source, current, line);
          && scanned + rest.tokens == r.tokens
          && reported + rest.diagnostics == r.diagnostics
          && rest.line == r.line
        invariant tokens == old(tokens) + scanned
        invariant diagnostics == old(diagnostics) + reported
        invariant hadErrors == (old(hadErrors) || reported != [])
        decreases |source| - current
      {
        start := current;
        ghost var step := LexToken(source, current, line);
        ghost var tokens0, diagnostics0 := tokens, diagnostics;
        ScanFromUnfold(source, current, line);
        ScanToken();
        ghost var rest := ScanFrom(source, current, line);
        AppendAssoc(scanned, Emitted(source, start, step), rest.tokens);
        AppendAssoc(old(tokens), scanned, Emitted(source, start, step));
        AppendAssoc(reported, Reported(step), rest.diagnostics);
        AppendAssoc(old(diagnostics), reported, Reported(step));
        scanned, reported := scanned + Emitted(source, start, step), reported + Reported(step);
      }
      tokens := tokens + [EofToken(line)];
    }

    /** Marks the scan as failed and records the diagnostic. */
    method Error(line: nat, message: string)
      modifies this`hadErrors, this`diagnostics
      ensures hadErrors && diagnostics == old(diagnostics) + [Diagnostic(line, message)]
    {
      hadErrors := true;
      diagnostics := diagnostics + [Diagnostic(line, message)];
    }

    /** Pushes a token whose lexeme is the current lexeme `source[start..current]`. */
    method AddToken(kind: TokenKind)
      requires start <= current <= |source|
      modifies this`tokens
      ensures tokens == old(tokens) + [Token(kind, source[start..current], line)]
    {
      tokens := tokens + [Token(kind, source[start..current], line)];
    }

    /** Scans one lexeme, starting with the character at `current`. */
    method ScanToken()
      requires Valid() && start == current < |source|
      modifies this`current, this`line, this`tokens, this`hadErrors, this`diagnostics
      ensures Valid()
      ensures ScanStep(LexToken(source, old(current), old(line)), old(current), old(tokens), old(diagnostics), old(hadErrors))
    {
      ghost var r := LexToken(source, current, line);
      var next := Advance();
      var c := next.value;
      if PunctuationKind(c).Some? {
        AddToken(PunctuationKind(c).value);
      } else if OperatorKinds(c).Some? {
        var (one, two) := OperatorKinds(c).value;
        var matched := AdvanceIfMatches('=');
        AddToken(if matched then two else one);
      } else if c == '/' {
        var comment := AdvanceIfMatches('/');
        if comment {
          SkipComment();
        } else {
          AddToken(Slash);
        }
      } else if IsBlank(c) {
        if c == '\n' {
          line := line + 1;
        }
      } else if c == '"' {
        StringLiteral();
        assert r == LexerSpec.StringLiteral(source, start, old(line));
      } else if IsDigit(c) {
        NumberLiteral();
        assert r == LexerSpec.NumberLiteral(source, start, old(line));
      } else {
        Error(line, "Unexpected character");
      }
      assert ScanStep(r, old(current), old(tokens), old(diagnostics), old(hadErrors));
      LexLinesAgree(old(current), old(line));
    }

    /** This scanner's state is the one `r`, a step from `from`, leads to from the given state. */
    ghost predicate ScanStep(r: Lexed, from: nat, tokens0: seq<Token>, diagnostics0: seq<Diagnostic>, hadErrors0: bool)
      reads this
    {
      && from <= r.next <= |source|
      && current == r.next && line == r.line
      && tokens == tokens0 + Emitted(source, from, r)
      && diagnostics == diagnostics0 + Reported(r)
      && hadErrors == (hadErrors0 || r.error.Some?)
    }

    /** The line invariant carries over one step of `LexToken`. */
    lemma LexLinesAgree(from: nat, before: nat)
      requires from < |source| && before == 1 + Lines(source, 0, from)
      requires current == LexToken(source, from, before).next && line == LexToken(source, from, before).line
      requires start <= from
      ensures Valid()
    {
      StepLines(source, from, before);
      LinesSplit(source, 0, from, current);
    }

    /** Consumes a line comment's text, up to and not including the newline that ends it. */
    method SkipComment()
      requires current <= |source|
      modifies this`current
      ensures current == Until(source, old(current), '\n')
    {
      while Peek() != '\n' && !IsAtEnd()
        invariant old(current) <= current <= |source|
        invariant Until(source, current, '\n') == Until(source, old(current), '\n')
        decreases |source| - current
      {
        var _ := Advance();
      }
    }

    /**
     * Consumes a number literal whose first digit is already consumed: a
     * digit run, then a fractional part only when a digit follows the `.`.
     */
    method NumberLiteral()
      requires start < |source| && IsDigit(source[start]) && current == start + 1
      modifies this`current, this`tokens
      ensures current == NumberEnd(source, start)
      ensures tokens == old(tokens) + [Token(Number(source[start..current]), source[start..current], line)]
    {
      SkipDigits();
      if Peek() == '.' && IsDigit(PeekNext()) {
        var _ := Advance();
        SkipDigits();
      }
      AddToken(Number(source[start..current]));
    }

    /** The `while self.is_digit(self.peek())` loop `number_literal` runs for each digit run. */
    method SkipDigits()
      requires current <= |source|
      modifies this`current
      ensures current == DigitsEnd(source, old(current))
    {
      while IsDigit(Peek())
        invariant old(current) <= current <= |source|
        invariant DigitsEnd(source, current) == DigitsEnd(source, old(current))
        decreases |source| - current
      {
        var _ := Advance();
      }
    }

    /**
     * Consumes a string literal whose opening quote is already consumed,
     * counting the newlines inside it. Unterminated: reports and adds nothing.
     */
    method StringLiteral()
      requires start < |source| && source[start] == '"' && current == start + 1
      modifies this`current, this`line, this`tokens, this`hadErrors, this`diagnostics
      ensures var r := LexerSpec.StringLiteral(source, start, old(line));
        && current == r.next && line == r.line
        && tokens == old(tokens) + Emitted(source, start, r)
        && diagnostics == old(diagnostics) + Reported(r)
        && hadErrors == (old(hadErrors) || r.error.Some?)
    {
      SkipStringBody();
      if IsAtEnd() {
        Error(line, "Unterminated string");
        return;
      }
      var _ := Advance();
      AddToken(String(source[start + 1..current - 1]));
    }

    /** The loop of `string_literal`: up to the closing quote or the end, counting newlines. */
    method SkipStringBody()
      requires current <= |source|
      modifies this`current, this`line
      ensures current == Until(source, old(current), '"')
      ensures line == old(line) + Lines(source, old(current), current)
    {
      while Peek() != '"' && !IsAtEnd()
        invariant old(current) <= current <= |source|
        invariant Until(source, current, '"') == Until(source, old(current), '"')
        invariant line == old(line) + Lines(source, old(current), current)
        decreases |source| - current
      {
        if Peek() == '\n' {
          line := line + 1;
        }
        var _ := Advance();
      }
    }

    /** The next character without consuming it; NUL at the end. */
    function Peek(): (c: char)
      reads this
      ensures c == CharAt(source, current)
    {
      if current < |source| then source[current] else '\0'
    }

    /** The character after the next one; NUL past the end. */
    function PeekNext(): (c: char)
      reads this
      ensures c == CharAt(source, current + 1)
    {
      if current + 1 < |source| then source[current + 1] else '\0'
    }

    /** Consumes the next character when it is `expected`. */
    method AdvanceIfMatches(expected: char) returns (matched: bool)
      modifies this`current
      ensures matched == (old(current) < |source| && source[old(current)] == expected)
      ensures current == old(current) + (if matched then 1 else 0)
    {
      if current < |source| {
        if source[current] == expected {
          current := current + 1;
          return true;
        } else {
          return false;
        }
      }
      return false;
    }

    /** Moves the cursor one character on and returns the character it passed, if any. */
    method Advance() returns (c: Option<char>)
      modifies this`current
      ensures current == old(current) + 1
      ensures c == if old(current) < |source| then Some(source[old(current)]) else None
    {
      current := current + 1;
      c := if current - 1 < |source| then Some(source[current - 1]) else None;
    }

    function IsAtEnd(): (b: bool)
      reads this
      ensures b == (current >= |source|)
    {
      current >= |source|
    }
  }
}
