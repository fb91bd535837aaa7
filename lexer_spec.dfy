/**
 * A functional specification of the scanner in src/scanner.rs: what one
 * call of `scan_token` does to the cursor, the line counter, the token list
 * and the error flag, and what the whole `scan_tokens` loop produces.
 * The imperative `Lexer.Scanner` is proved to follow it.
 *
 * Indices are character indices; the source is taken to be ASCII, where the
 * Rust code's byte and character indices agree.
 */
module LexerSpec {
  import opened Wrappers
  import opened Tokens

  /** The character at `i`, or NUL past the end (`peek` / `peek_next`). */
  function CharAt(src: string, i: nat): char {
    if i < |src| then src[i] else '\0'
  }

  /** The number of newline characters in `src[i..j]`. */
  function Lines(src: string, i: nat, j: nat): nat
    requires i <= j <= |src|
    decreases j - i
  {
    if i == j then 0 else Lines(src, i, j - 1) + (if src[j - 1] == '\n' then 1 else 0)
  }

  /** Counting newlines over two adjacent slices adds up. */
  lemma {:induction false} LinesSplit(src: string, i: nat, j: nat, k: nat)
    requires i <= j <= k <= |src|
    ensures Lines(src, i, k) == Lines(src, i, j) + Lines(src, j, k)
    decreases k - j
  {
    if j < k {
      LinesSplit(src, i, j, k - 1);
    }
  }

  /** The end of the maximal run of digits that starts at `i`. */
  function DigitsEnd(src: string, i: nat): (j: nat)
    requires i <= |src|
    ensures i <= j <= |src|
    ensures j == |src| || !IsDigit(src[j])
    decreases |src| - i
  {
    if i < |src| && IsDigit(src[i]) then DigitsEnd(src, i + 1) else i
  }

  /** The first index at or after `i` that holds `stop`, or the end of the source. */
  function Until(src: string, i: nat, stop: char): (j: nat)
    requires i <= |src|
    ensures i <= j <= |src|
    ensures j == |src| || src[j] == stop
    decreases |src| - i
  {
    if i < |src| && src[i] != stop then Until(src, i + 1, stop) else i
  }

  /** Everything a digit run covers is a digit. */
  lemma {:induction false} DigitsEndDigits(src: string, i: nat)
    requires i <= |src|
    ensures forall k :: i <= k < DigitsEnd(src, i) ==> IsDigit(src[k])
    decreases |src| - i
  {
    if i < |src| && IsDigit(src[i]) {
      DigitsEndDigits(src, i + 1);
    }
  }

  /** Nothing before the stop character's first occurrence is the stop character. */
  lemma {:induction false} UntilSkips(src: string, i: nat, stop: char)
    requires i <= |src|
    ensures forall k :: i <= k < Until(src, i, stop) ==> src[k] != stop
    decreases |src| - i
  {
    if i < |src| && src[i] != stop {
      UntilSkips(src, i + 1, stop);
    }
  }

  /**
   * Where `number_literal` stops when the lexeme's first digit is at
   * `start`: a digit run, then a `.` and a second digit run only when the
   * character after the `.` is a digit.
   */
  function NumberEnd(src: string, start: nat): (j: nat)
    requires start < |src|
    ensures start < j <= |src|
  {
    var intEnd := DigitsEnd(src, start + 1);
    if CharAt(src, intEnd) == '.' && IsDigit(CharAt(src, intEnd + 1)) then DigitsEnd(src, intEnd + 1) else intEnd
  }

  /** A diagnostic `Scanner::error` prints: the line and the message. */
  datatype Diagnostic = Diagnostic(line: nat, message: string)

  /**
   * The effect of one `scan_token` call that starts at `start`: the new
   * cursor, the new line counter, the kind of the token it adds (if any)
   * and the error message it reports (if any).
   */
  datatype Lexed = Lexed(next: nat, line: nat, kind: Option<TokenKind>, error: Option<string>)

  /** A one-character token (`add_token` right after the `advance`). */
  function Single(start: nat, line: nat, kind: TokenKind): (r: Lexed) {
    Lexed(start + 1, line, Some(kind), None)
  }

  /** A character that is skipped: blank space, or a newline, which counts a line. */
  function Blank(src: string, start: nat, line: nat): (r: Lexed)
    requires start < |src|
  {
    Lexed(start + 1, if src[start] == '\n' then line + 1 else line, None, None)
  }

  /** A character outside the dispatch table: reported, no token. */
  function Unexpected(start: nat, line: nat): (r: Lexed) {
    Lexed(start + 1, line, None, Some("Unexpected character"))
  }

  /** A one-character operator, or its two-character form when `=` follows (maximal munch). */
  function OneOrTwo(src: string, start: nat, line: nat, one: TokenKind, two: TokenKind): (r: Lexed)
    requires start < |src|
    ensures r.next <= |src|
  {
    if CharAt(src, start + 1) == '=' then Lexed(start + 2, line, Some(two), None)
    else Lexed(start + 1, line, Some(one), None)
  }

  /** `/`: a line comment running up to (not including) the next newline, or the `Slash` operator. */
  function SlashOrComment(src: string, start: nat, line: nat): (r: Lexed)
    requires start < |src|
    ensures start < r.next <= |src|
  {
    if CharAt(src, start + 1) == '/' then Lexed(Until(src, start + 2, '\n'), line, None, None)
    else Single(start, line, Slash)
  }

  /**
   * `"`: a string literal up to the closing quote, which may span lines;
   * its payload is the text strictly between the quotes, and the newlines
   * in it are counted. Without a closing quote the rest of the source is
   * consumed, reported and dropped.
   */
  function StringLiteral(src: string, start: nat, line: nat): (r: Lexed)
    requires start < |src|
    ensures start < r.next <= |src|
  {
    var close := Until(src, start + 1, '"');
    var l := line + Lines(src, start + 1, close);
    if close == |src| then Lexed(close, l, None, Some("Unterminated string"))
    else Lexed(close + 1, l, Some(String(src[start + 1..close])), None)
  }

  /** A digit: a number literal, whose payload is its whole lexeme. */
  function NumberLiteral(src: string, start: nat, line: nat): (r: Lexed)
    requires start < |src|
    ensures start < r.next <= |src|
  {
    var e := NumberEnd(src, start);
    Lexed(e, line, Some(Number(src[start..e])), None)
  }

  /** The ten characters that always make a one-character token, and their kinds. */
  function PunctuationKind(c: char): Option<TokenKind> {
    match c
    case '(' => Some(LeftParen)
    case ')' => Some(RightParen)
    case '{' => Some(LeftBrace)
    case '}' => Some(RightBrace)
    case ',' => Some(Comma)
    case '.' => Some(Dot)
    case '-' => Some(Minus)
    case '+' => Some(Plus)
    case ';' => Some(SemiColon)
    case '*' => Some(Star)
    case _ => None
  }

  /** The four characters that may be followed by `=`: their one- and two-character kinds. */
  function OperatorKinds(c: char): Option<(TokenKind, TokenKind)> {
    match c
    case '!' => Some((Bang, BangEqual))
    case '=' => Some((Equal, EqualEqual))
    case '<' => Some((Less, LessEqual))
    case '>' => Some((Greater, GreaterEqual))
    case _ => None
  }

  predicate IsBlank(c: char) {
    c == ' ' || c == '\r' || c == '\t' || c == '\n'
  }

  /** One step of the scanner: what `scan_token` does when `start == current`. */
  function LexToken(src: string, start: nat, line: nat): (r: Lexed)
    requires start < |src|
    ensures start < r.next <= |src|
    ensures !(r.kind.Some? && r.error.Some?)
  {
    var c := src[start];
    if PunctuationKind(c).Some? then Single(start, line, PunctuationKind(c).value)
    else if OperatorKinds(c).Some? then OneOrTwo(src, start, line, OperatorKinds(c).value.0, OperatorKinds(c).value.1)
    else if c == '/' then SlashOrComment(src, start, line)
    else if IsBlank(c) then Blank(src, start, line)
    else if c == '"' then StringLiteral(src, start, line)
    else if IsDigit(c) then NumberLiteral(src, start, line)
    else Unexpected(start, line)
  }

  /** Every step moves the line counter on by the newlines it consumes. */
  lemma StepLines(src: string, start: nat, line: nat)
    requires start < |src|
    ensures LexToken(src, start, line).line == line + Lines(src, start, LexToken(src, start, line).next)
  {
    var c := src[start];
    if c == '"' {
      assert LexToken(src, start, line) == StringLiteral(src, start, line);
      StringLines(src, start, line);
    } else if IsDigit(c) {
      assert LexToken(src, start, line) == NumberLiteral(src, start, line);
      NumberLines(src, start, line);
    } else if !IsBlank(c) {
      var r := LexToken(src, start, line);
      if c == '/' && CharAt(src, start + 1) == '/' {
        UntilSkips(src, start + 2, '\n');
      }
      NoNewlines(src, start, r.next);
    }
  }

  lemma StringLines(src: string, start: nat, line: nat)
    requires start < |src| && src[start] == '"'
    ensures StringLiteral(src, start, line).line == line + Lines(src, start, StringLiteral(src, start, line).next)
  {
    var r := StringLiteral(src, start, line);
    var close := Until(src, start + 1, '"');
    assert r.line == line + Lines(src, start + 1, close);
    assert r.next == close || (close < |src| && r.next == close + 1 && src[close] == '"');
    QuotedLines(src, start, close, r.next);
  }

  /** The newlines from an opening quote up to `next` are those strictly between the quotes. */
  lemma QuotedLines(src: string, start: nat, close: nat, next: nat)
    requires start < close <= |src| && src[start] == '"'
    requires next == close || (close < |src| && next == close + 1 && src[close] == '"')
    ensures Lines(src, start, next) == Lines(src, start + 1, close)
  {
    LinesFrom(src, start, next);
    if next != close {
      LinesTo(src, start + 1, close);
    }
  }

  /** A first character other than a newline adds no line. */
  lemma LinesFrom(src: string, i: nat, j: nat)
    requires i < j <= |src| && src[i] != '\n'
    ensures Lines(src, i, j) == Lines(src, i + 1, j)
  {
    LinesSplit(src, i, i + 1, j);
    assert Lines(src, i, i + 1) == Lines(src, i, i) + 0;
  }

  /** A last character other than a newline adds no line. */
  lemma LinesTo(src: string, i: nat, j: nat)
    requires i <= j < |src| && src[j] != '\n'
    ensures Lines(src, i, j + 1) == Lines(src, i, j)
  {
  }

  lemma NumberLines(src: string, start: nat, line: nat)
    requires start < |src| && IsDigit(src[start])
    ensures NumberLiteral(src, start, line).line == line + Lines(src, start, NumberLiteral(src, start, line).next)
  {
    var intEnd := DigitsEnd(src, start + 1);
    var e := NumberEnd(src, start);
    DigitsEndDigits(src, start + 1);
    if e != intEnd {
      DigitsEndDigits(src, intEnd + 1);
    }
    assert forall k :: start <= k < e ==> IsDigit(src[k]) || (k == intEnd && src[k] == '.');
    NoNewlines(src, start, e);
  }

  /** A slice without newline characters adds no line. */
  lemma {:induction false} NoNewlines(s: string, i: nat, j: nat)
    requires i <= j <= |s|
    requires forall k :: i <= k < j ==> s[k] != '\n'
    ensures Lines(s, i, j) == 0
    decreases j - i
  {
    if i < j {
      NoNewlines(s, i, j - 1);
    }
  }

  /** Where a token's lexeme lies in the source: `start..end`. */
  datatype Span = Span(start: nat, end: nat)

  /** What scanning from some point to the end of the source adds. */
  datatype Scan = Scan(tokens: seq<Token>, spans: seq<Span>, diagnostics: seq<Diagnostic>, line: nat)

  /** The token one step adds: its lexeme is the consumed slice (`add_token`). */
  function Emitted(src: string, start: nat, r: Lexed): seq<Token>
    requires start <= r.next <= |src|
  {
    if r.kind.Some? then [Token(r.kind.value, src[start..r.next], r.line)] else []
  }

  /** The diagnostic one step reports, at the line the scanner is on then. */
  function Reported(r: Lexed): seq<Diagnostic> {
    if r.error.Some? then [Diagnostic(r.line, r.error.value)] else []
  }

  /** The `while !self.is_at_end()` loop of `scan_tokens`, from cursor `i` on line `line`. */
  function ScanFrom(src: string, i: nat, line: nat): (r: Scan)
    requires i <= |src|
    ensures |r.spans| == |r.tokens|
    decreases |src| - i
  {
    if i == |src| then Scan([], [], [], line)
    else
      var s := LexToken(src, i, line);
      var rest := ScanFrom(src, s.next, s.line);
      Scan(Emitted(src, i, s) + rest.tokens,
           (if s.kind.Some? then [Span(i, s.next)] else []) + rest.spans,
           Reported(s) + rest.diagnostics,
           rest.line)
  }

  /** Scanning from `i` is one step followed by scanning from where that step stops. */
  lemma ScanFromUnfold(src: string, i: nat, line: nat)
    requires i < |src|
    ensures var s := LexToken(src, i, line);
      var rest := ScanFrom(src, s.next, s.line);
      ScanFrom(src, i, line).tokens == Emitted(src, i, s) + rest.tokens &&
      ScanFrom(src, i, line).diagnostics == Reported(s) + rest.diagnostics &&
      ScanFrom(src, i, line).line == rest.line
  {
  }

  lemma AppendAssoc<T>(a: seq<T>, b: seq<T>, c: seq<T>)
    ensures (a + b) + c == a + (b + c)
  {
  }

  /** The `Eof` token `scan_tokens` appends after the loop. */
  function EofToken(line: nat): Token {
    Token(Eof, "", line)
  }

  /** The final line counter is one plus the number of newlines scanned. */
  lemma {:induction false} ScanLine(src: string, i: nat, line: nat)
    requires i <= |src|
    ensures ScanFrom(src, i, line).line == line + Lines(src, i, |src|)
    decreases |src| - i
  {
    if i < |src| {
      var s := LexToken(src, i, line);
      ScanLine(src, s.next, s.line);
      StepLines(src, i, line);
      LinesSplit(src, i, s.next, |src|);
    }
  }

  /** A character none of `scan_token`'s arms accepts. */
  predicate Stray(c: char) {
    PunctuationKind(c).None? && OperatorKinds(c).None? && c != '/' && !IsBlank(c) && c != '"' && !IsDigit(c)
  }

  /** A source with no stray character and no string literal scans without errors. */
  lemma {:induction false} ScanWithoutErrors(src: string, i: nat, line: nat)
    requires i <= |src|
    ensures (forall k :: i <= k < |src| ==> !Stray(src[k]) && src[k] != '"') ==> ScanFrom(src, i, line).diagnostics == []
    decreases |src| - i
  {
    if i < |src| && forall k :: i <= k < |src| ==> !Stray(src[k]) && src[k] != '"' {
      var s := LexToken(src, i, line);
      ScanWithoutErrors(src, s.next, s.line);
    }
  }

  /** Everything `scan_tokens` leaves in a fresh scanner over `src`: it always ends with one `Eof`, on the last line. */
  function TokensOf(src: string): (t: seq<Token>)
    ensures |t| >= 1 && t[|t| - 1] == Token(Eof, "", 1 + Lines(src, 0, |src|))
  {
    ScanLine(src, 0, 1);
    var r := ScanFrom(src, 0, 1);
    r.tokens + [EofToken(r.line)]
  }

  /** The `had_errors` flag of a fresh scanner after `scan_tokens`: only a stray character or a `"` can raise it. */
  predicate HadErrors(src: string): (b: bool)
    ensures b ==> exists k :: 0 <= k < |src| && (Stray(src[k]) || src[k] == '"')
  {
    ScanWithoutErrors(src, 0, 1);
    ScanFrom(src, 0, 1).diagnostics != []
  }
}
