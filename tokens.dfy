/**
 * The token vocabulary shared by the scanner and the parser
 * (`TokenKind` and `Token` in src/scanner.rs).
 */
module Tokens {

  /**
   * Every kind of token. `Number` keeps the matched digits instead of the
   * `f32` the Rust code parses them into; `String` keeps the text between
   * the quotes. The keyword kinds and `Identifier` exist in the vocabulary
   * but the scanner never produces them.
   */
  datatype TokenKind =
    // Single-character tokens.
    | LeftParen | RightParen | LeftBrace | RightBrace
    | Comma | Dot | Minus | Plus | SemiColon | Slash | Star
    // One or two character tokens.
    | Bang | BangEqual | Equal | EqualEqual
    | Greater | GreaterEqual | Less | LessEqual
    // Literals.
    | Identifier | String(text: string) | Number(literal: string)
    // Keywords.
    | And | Class | Else | False | Fun | For | If | Nil | Or
    | Print | Return | Super | This | True | Var | While
    | Eof

  /** A classified piece of source text and the line the scanner was on when it emitted it. */
  datatype Token = Token(kind: TokenKind, lexeme: string, line: nat)

  /** `is_digit`. */
  predicate IsDigit(c: char) {
    '0' <= c <= '9'
  }

  /** The digits are exactly the ten characters `0` to `9`. */
  lemma DigitCharacters(c: char)
    ensures IsDigit(c) <==> c in "0123456789"
  {
  }

  /** The text of a number literal: digits, optionally a `.` and more digits. */
  predicate IsNumberText(s: string) {
    exists k :: 0 < k <= |s| && IsDigitRun(s[..k]) && (k == |s| || (s[k] == '.' && k + 1 < |s| && IsDigitRun(s[k + 1..])))
  }

  predicate IsDigitRun(s: string) {
    forall k :: 0 <= k < |s| ==> IsDigit(s[k])
  }

  /** The lexeme a punctuation or operator kind is always spelled with; empty for every other kind. */
  function FixedSpelling(kind: TokenKind): string {
    match kind
    case LeftParen => "("
    case RightParen => ")"
    case LeftBrace => "{"
    case RightBrace => "}"
    case Comma => ","
    case Dot => "."
    case Minus => "-"
    case Plus => "+"
    case SemiColon => ";"
    case Slash => "/"
    case Star => "*"
    case Bang => "!"
    case BangEqual => "!="
    case Equal => "="
    case EqualEqual => "=="
    case Greater => ">"
    case GreaterEqual => ">="
    case Less => "<"
    case LessEqual => "<="
    case _ => ""
  }
}
