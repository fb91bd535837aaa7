/**
 * The scanner tests of src/scanner.rs, stated as lemmas about `TokensOf`
 * and `HadErrors`, with the exact token lists where the tests only check
 * a count or the first kind. The two string tests keep their sources as
 * written; `multi_line` and `comments` have their indentation shortened
 * to one space or none and their comment text shortened. Two more show
 * the two error messages.
 */
module LexerExamples {
  import opened Wrappers
  import opened Tokens
  import opened LexerSpec
  import opened LexerProperties

  /** `empty_source`: nothing but `Eof`, on line 1. */
  lemma EmptySource()
    ensures TokensOf("") == [Token(Eof, "", 1)]
    ensures !HadErrors("")
  {
  }

  /** `single_char_tokens`: one token per character, then `Eof`. */
  lemma SingleCharTokens(s: string)
    requires s == "{}()+"
    ensures TokensOf(s) == [Token(LeftBrace, "{", 1), Token(RightBrace, "}", 1), Token(LeftParen, "(", 1),
                            Token(RightParen, ")", 1), Token(Plus, "+", 1), Token(Eof, "", 1)]
    ensures !HadErrors(s)
  {
    PunctuationOnly(s, 0, 1);
    var t := ScanFrom(s, 0, 1).tokens;
    assert s[0] == '{' && s[1] == '}' && s[2] == '(' && s[3] == ')' && s[4] == '+';
    assert t == [t[0], t[1], t[2], t[3], t[4]];
  }

  /** `end_of_stream_lookahead`: `<` at the very end is `Less`, not the start of `<=`. */
  lemma EndOfStreamLookahead(s: string)
    requires s == "<"
    ensures TokensOf(s) == [Token(Less, "<", 1), Token(Eof, "", 1)]
    ensures !HadErrors(s)
  {
    assert LexToken(s, 0, 1) == Lexed(1, 1, Some(Less), None);
    ScanEmits(s, 0, 1);
    assert s[0..1] == "<";
  }

  /** `multi_line`: tokens on four lines, `<=` as one token. */
  lemma MultiLine(s: string)
    requires s == "{}\n >\n <=\n +"
    ensures TokensOf(s) == [Token(LeftBrace, "{", 1), Token(RightBrace, "}", 1), Token(Greater, ">", 2),
                            Token(LessEqual, "<=", 3), Token(Plus, "+", 4), Token(Eof, "", 4)]
    ensures !HadErrors(s)
  {
    MultiLineFrom4(s);
    assert LexToken(s, 3, 2) == Lexed(4, 2, None, None);
    ScanQuiet(s, 3, 2);
    assert LexToken(s, 2, 1) == Lexed(3, 2, None, None);
    ScanQuiet(s, 2, 1);
    assert LexToken(s, 1, 1) == Lexed(2, 1, Some(RightBrace), None);
    ScanEmits(s, 1, 1);
    assert LexToken(s, 0, 1) == Lexed(1, 1, Some(LeftBrace), None);
    ScanEmits(s, 0, 1);
    assert s[0..1] == "{" && s[1..2] == "}";
  }

  lemma MultiLineFrom4(s: string)
    requires s == "{}\n >\n <=\n +"
    ensures ScanFrom(s, 4, 2) == Scan([Token(Greater, ">", 2), Token(LessEqual, "<=", 3), Token(Plus, "+", 4)],
                                      [Span(4, 5), Span(7, 9), Span(11, 12)], [], 4)
  {
    MultiLineFrom7(s);
    assert LexToken(s, 6, 3) == Lexed(7, 3, None, None);
    ScanQuiet(s, 6, 3);
    assert LexToken(s, 5, 2) == Lexed(6, 3, None, None);
    ScanQuiet(s, 5, 2);
    assert LexToken(s, 4, 2) == Lexed(5, 2, Some(Greater), None);
    ScanEmits(s, 4, 2);
    assert s[4..5] == ">";
  }

  lemma MultiLineFrom7(s: string)
    requires s == "{}\n >\n <=\n +"
    ensures ScanFrom(s, 7, 3) == Scan([Token(LessEqual, "<=", 3), Token(Plus, "+", 4)], [Span(7, 9), Span(11, 12)], [], 4)
  {
    assert LexToken(s, 11, 4) == Lexed(12, 4, Some(Plus), None);
    ScanEmits(s, 11, 4);
    assert LexToken(s, 10, 4) == Lexed(11, 4, None, None);
    ScanQuiet(s, 10, 4);
    assert LexToken(s, 9, 3) == Lexed(10, 4, None, None);
    ScanQuiet(s, 9, 3);
    assert LexToken(s, 7, 3) == Lexed(9, 3, Some(LessEqual), None);
    ScanEmits(s, 7, 3);
    assert s[7..9] == "<=" && s[11..12] == "+";
  }

  /** `comments`: comments produce nothing, whether on a line of their own or after a token. */
  lemma Comments(s: string)
    requires s == "\n// c\n< // c\n{// c\n"
    ensures TokensOf(s) == [Token(Less, "<", 3), Token(LeftBrace, "{", 4), Token(Eof, "", 5)]
    ensures !HadErrors(s)
  {
    CommentsFrom6(s);
    assert LexToken(s, 5, 2) == Lexed(6, 3, None, None);
    ScanQuiet(s, 5, 2);
    assert Until(s, 5, '\n') == 5 && Until(s, 4, '\n') == 5 && Until(s, 3, '\n') == 5;
    assert LexToken(s, 1, 2) == Lexed(5, 2, None, None);
    ScanQuiet(s, 1, 2);
    assert LexToken(s, 0, 1) == Lexed(1, 2, None, None);
    ScanQuiet(s, 0, 1);
  }

  lemma CommentsFrom6(s: string)
    requires s == "\n// c\n< // c\n{// c\n"
    ensures ScanFrom(s, 6, 3) == Scan([Token(Less, "<", 3), Token(LeftBrace, "{", 4)], [Span(6, 7), Span(13, 14)], [], 5)
  {
    CommentsFrom13(s);
    assert LexToken(s, 12, 3) == Lexed(13, 4, None, None);
    ScanQuiet(s, 12, 3);
    assert Until(s, 12, '\n') == 12 && Until(s, 11, '\n') == 12 && Until(s, 10, '\n') == 12;
    assert LexToken(s, 8, 3) == Lexed(12, 3, None, None);
    ScanQuiet(s, 8, 3);
    assert LexToken(s, 7, 3) == Lexed(8, 3, None, None);
    ScanQuiet(s, 7, 3);
    assert LexToken(s, 6, 3) == Lexed(7, 3, Some(Less), None);
    ScanEmits(s, 6, 3);
    assert s[6..7] == "<";
  }

  lemma CommentsFrom13(s: string)
    requires s == "\n// c\n< // c\n{// c\n"
    ensures ScanFrom(s, 13, 4) == Scan([Token(LeftBrace, "{", 4)], [Span(13, 14)], [], 5)
  {
    assert LexToken(s, 18, 4) == Lexed(19, 5, None, None);
    ScanQuiet(s, 18, 4);
    assert Until(s, 18, '\n') == 18 && Until(s, 17, '\n') == 18 && Until(s, 16, '\n') == 18;
    assert LexToken(s, 14, 4) == Lexed(18, 4, None, None);
    ScanQuiet(s, 14, 4);
    assert LexToken(s, 13, 4) == Lexed(14, 4, Some(LeftBrace), None);
    ScanEmits(s, 13, 4);
    assert s[13..14] == "{";
  }

  /** `string_literal`: the payload is the text between the quotes. */
  lemma StringLiteral(s: string)
    requires s == "\n" + "        \"blop\"\n" + "        "
    ensures TokensOf(s) == [Token(String("blop"), "\"blop\"", 2), Token(Eof, "", 3)]
    ensures !HadErrors(s)
  {
    StringLiteralHead(s);
    StringLiteralClose(s);
    StringLiteralTail(s);
    OneStringLiteral(s, 9, 14, 2, 2, 3, "blop", "\"blop\"");
  }

  lemma StringLiteralHead(s: string)
    requires s == "\n" + "        \"blop\"\n" + "        "
    ensures ScanFrom(s, 0, 1) == ScanFrom(s, 9, 2)
  {
    NoNewlines(s, 1, 9);
    LinesSplit(s, 0, 1, 9);
    BlanksSkipped(s, 0, 9, 1, 2);
  }

  lemma StringLiteralClose(s: string)
    requires s == "\n" + "        \"blop\"\n" + "        "
    ensures Until(s, 10, '"') == 14 && Lines(s, 10, 14) == 0
    ensures s[10..14] == "blop" && s[9..15] == "\"blop\""
  {
    assert Until(s, 14, '"') == 14;
    assert Until(s, 12, '"') == 14;
    NoNewlines(s, 10, 14);
  }

  lemma StringLiteralTail(s: string)
    requires s == "\n" + "        \"blop\"\n" + "        "
    ensures ScanFrom(s, 15, 2) == Scan([], [], [], 3)
  {
    NoNewlines(s, 16, 24);
    LinesSplit(s, 15, 16, 24);
    BlanksSkipped(s, 15, 24, 2, 3);
  }

  /**
   * `multi_line_string_literal`: the payload keeps its newline and the
   * indentation of its second line, and the token carries the line of its
   * closing quote.
   */
  lemma MultiLineStringLiteral(s: string)
    requires s == "\n" + "        \"blop\n" + "        blip\"\n" + "        "
    ensures TokensOf(s) == [Token(String("blop\n        blip"), "\"blop\n        blip\"", 3), Token(Eof, "", 4)]
    ensures !HadErrors(s)
  {
    MultiLineStringHead(s);
    MultiLineStringClose(s);
    MultiLineStringLines(s);
    MultiLineStringText(s);
    MultiLineStringLexeme(s);
    MultiLineStringTail(s);
    OneStringLiteral(s, 9, 27, 2, 3, 4, "blop\n        blip", "\"blop\n        blip\"");
  }

  /** Scanning a source whose only token is a string literal, between blanks. */
  lemma OneStringLiteral(s: string, open: nat, close: nat, line: nat, after: nat, endLine: nat, text: string, lexeme: string)
    requires open < close < |s|
    requires s[open] == '"'
    requires Until(s, open + 1, '"') == close
    requires s[open + 1..close] == text
    requires s[open..close + 1] == lexeme
    requires line + Lines(s, open + 1, close) == after
    requires ScanFrom(s, 0, 1) == ScanFrom(s, open, line)
    requires ScanFrom(s, close + 1, after) == Scan([], [], [], endLine)
    ensures TokensOf(s) == [Token(String(text), lexeme, after), Token(Eof, "", endLine)]
    ensures !HadErrors(s)
  {
    ScanString(s, open, line, close, after);
    var r := ScanFrom(s, open, line);
    assert r.tokens == [Token(String(text), lexeme, after)] + [];
    assert r.diagnostics == [] && r.line == endLine;
  }

  lemma MultiLineStringHead(s: string)
    requires s == "\n" + "        \"blop\n" + "        blip\"\n" + "        "
    ensures ScanFrom(s, 0, 1) == ScanFrom(s, 9, 2)
  {
    NoNewlines(s, 1, 9);
    LinesSplit(s, 0, 1, 9);
    BlanksSkipped(s, 0, 9, 1, 2);
  }

  lemma MultiLineStringClose(s: string)
    requires s == "\n" + "        \"blop\n" + "        blip\"\n" + "        "
    ensures Until(s, 10, '"') == 27
  {
    assert Until(s, 27, '"') == 27;
    assert Until(s, 25, '"') == 27;
    assert Until(s, 23, '"') == 27;
    assert Until(s, 21, '"') == 27;
    assert Until(s, 19, '"') == 27;
    assert Until(s, 17, '"') == 27;
    assert Until(s, 15, '"') == 27;
    assert Until(s, 13, '"') == 27;
    assert Until(s, 11, '"') == 27;
  }

  lemma MultiLineStringLines(s: string)
    requires s == "\n" + "        \"blop\n" + "        blip\"\n" + "        "
    ensures Lines(s, 10, 27) == 1
  {
    NoNewlines(s, 10, 14);
    NoNewlines(s, 15, 27);
    LinesSplit(s, 10, 14, 27);
    LinesSplit(s, 14, 15, 27);
  }

  lemma MultiLineStringText(s: string)
    requires s == "\n" + "        \"blop\n" + "        blip\"\n" + "        "
    ensures s[10..27] == "blop\n        blip"
  {
    assert s == "\n        \"" + "blop\n        blip" + "\"\n        ";
  }

  lemma MultiLineStringLexeme(s: string)
    requires s == "\n" + "        \"blop\n" + "        blip\"\n" + "        "
    ensures s[9..28] == "\"blop\n        blip\""
  {
    assert s == "\n        " + "\"blop\n        blip\"" + "\n        ";
  }

  lemma MultiLineStringTail(s: string)
    requires s == "\n" + "        \"blop\n" + "        blip\"\n" + "        "
    ensures ScanFrom(s, 28, 3) == Scan([], [], [], 4)
  {
    NoNewlines(s, 29, 37);
    LinesSplit(s, 28, 29, 37);
    BlanksSkipped(s, 28, 37, 3, 4);
  }

  /** `numbers`: integer and fractional literals, the payload being the digits as written. */
  lemma Numbers(s: string)
    requires s == "7 42 3.14"
    ensures TokensOf(s) == [Token(Number("7"), "7", 1), Token(Number("42"), "42", 1),
                            Token(Number("3.14"), "3.14", 1), Token(Eof, "", 1)]
    ensures !HadErrors(s)
  {
    NumbersFrom2(s);
    assert LexToken(s, 1, 1) == Lexed(2, 1, None, None);
    ScanQuiet(s, 1, 1);
    assert DigitsEnd(s, 1) == 1 && s[0..1] == "7";
    assert LexToken(s, 0, 1) == Lexed(1, 1, Some(Number("7")), None);
    ScanEmits(s, 0, 1);
  }

  lemma NumbersFrom2(s: string)
    requires s == "7 42 3.14"
    ensures ScanFrom(s, 2, 1) == Scan([Token(Number("42"), "42", 1), Token(Number("3.14"), "3.14", 1)],
                                      [Span(2, 4), Span(5, 9)], [], 1)
  {
    NumbersFrom5(s);
    assert LexToken(s, 4, 1) == Lexed(5, 1, None, None);
    ScanQuiet(s, 4, 1);
    assert DigitsEnd(s, 4) == 4 && DigitsEnd(s, 3) == 4 && s[2..4] == "42";
    assert LexToken(s, 2, 1) == Lexed(4, 1, Some(Number("42")), None);
    ScanEmits(s, 2, 1);
  }

  lemma NumbersFrom5(s: string)
    requires s == "7 42 3.14"
    ensures ScanFrom(s, 5, 1) == Scan([Token(Number("3.14"), "3.14", 1)], [Span(5, 9)], [], 1)
  {
    assert DigitsEnd(s, 9) == 9 && DigitsEnd(s, 8) == 9 && DigitsEnd(s, 7) == 9 && DigitsEnd(s, 6) == 6;
    assert s[5..9] == "3.14";
    assert LexToken(s, 5, 1) == Lexed(9, 1, Some(Number("3.14")), None);
    ScanEmits(s, 5, 1);
  }

  /** A character outside the language is reported and dropped; scanning goes on. */
  lemma UnexpectedCharacter(s: string)
    requires s == "@+"
    ensures TokensOf(s) == [Token(Plus, "+", 1), Token(Eof, "", 1)]
    ensures ScanFrom(s, 0, 1).diagnostics == [Diagnostic(1, "Unexpected character")]
  {
    assert LexToken(s, 1, 1) == Lexed(2, 1, Some(Plus), None);
    ScanEmits(s, 1, 1);
    assert s[1..2] == "+";
  }

  /** A string without its closing quote is reported and produces no token. */
  lemma UnterminatedString(s: string)
    requires s == "+\"ab"
    ensures TokensOf(s) == [Token(Plus, "+", 1), Token(Eof, "", 1)]
    ensures ScanFrom(s, 0, 1).diagnostics == [Diagnostic(1, "Unterminated string")]
  {
    assert Until(s, 4, '"') == 4 && Until(s, 2, '"') == 4;
    NoNewlines(s, 2, 4);
    assert LexToken(s, 1, 1) == Lexed(4, 1, None, Some("Unterminated string"));
    assert LexToken(s, 0, 1) == Lexed(1, 1, Some(Plus), None);
    ScanEmits(s, 0, 1);
    assert s[0..1] == "+";
  }
}
