/**
 * What the scanner of src/scanner.rs promises about the tokens it produces,
 * proved on the functional specification `LexerSpec`, which the imperative
 * `Lexer.Scanner` follows: where every token comes from, how it is spelled,
 * where `Eof` goes, which line each token carries, and when errors occur.
 */
module LexerProperties {
  import opened Wrappers
  import opened Tokens
  import opened LexerSpec

  /**
   * How a lexeme spells its token kind: punctuation and operators by their
   * fixed text, a string by its payload in quotes, a number by its digits.
   * No other kind (`Identifier`, a keyword, `Eof`) spells anything.
   */
  predicate Spells(kind: TokenKind, lexeme: string) {
    match kind
    case String(text) => lexeme == "\"" + text + "\"" && '"' !in text
    case Number(literal) => lexeme == literal && IsNumberText(literal)
    case _ => FixedSpelling(kind) != "" && lexeme == FixedSpelling(kind)
  }

  /** The ten punctuation kinds are spelled by their character. */
  lemma PunctuationSpelling(c: char)
    requires PunctuationKind(c).Some?
    ensures FixedSpelling(PunctuationKind(c).value) == [c]
  {
  }

  /** The operator kinds are spelled by their character, and with `=` after it for the two-character form. */
  lemma OperatorSpelling(c: char)
    requires OperatorKinds(c).Some?
    ensures FixedSpelling(OperatorKinds(c).value.0) == [c]
    ensures FixedSpelling(OperatorKinds(c).value.1) == [c, '=']
  {
  }

  /** A punctuation character is a one-character token on its own. */
  lemma PunctuationStep(src: string, i: nat, line: nat)
    requires i < |src| && PunctuationKind(src[i]).Some?
    ensures LexToken(src, i, line) == Lexed(i + 1, line, PunctuationKind(src[i]), None)
  {
  }

  /** A blank character is skipped, a newline counted. */
  lemma BlankStep(src: string, i: nat, line: nat)
    requires i < |src| && IsBlank(src[i])
    ensures LexToken(src, i, line) == Lexed(i + 1, if src[i] == '\n' then line + 1 else line, None, None)
  {
    assert PunctuationKind(src[i]).None? && OperatorKinds(src[i]).None?;
  }

  /** A step that emits and reports nothing leaves the scan to the next step. */
  lemma ScanQuiet(src: string, i: nat, line: nat)
    requires i < |src|
    requires LexToken(src, i, line).kind == None && LexToken(src, i, line).error == None
    ensures var s := LexToken(src, i, line);
      ScanFrom(src, i, line) == ScanFrom(src, s.next, s.line)
  {
    var s := LexToken(src, i, line);
    var rest := ScanFrom(src, s.next, s.line);
    assert [] + rest.tokens == rest.tokens && [] + rest.spans == rest.spans && [] + rest.diagnostics == rest.diagnostics;
  }

  /** A step that emits a token and reports nothing puts that token and its span in front. */
  lemma ScanEmits(src: string, i: nat, line: nat)
    requires i < |src|
    requires LexToken(src, i, line).kind.Some? && LexToken(src, i, line).error == None
    ensures var s := LexToken(src, i, line);
      var rest := ScanFrom(src, s.next, s.line);
      ScanFrom(src, i, line) == Scan([Token(s.kind.value, src[i..s.next], s.line)] + rest.tokens,
                                     [Span(i, s.next)] + rest.spans, rest.diagnostics, rest.line)
  {
    var s := LexToken(src, i, line);
    var rest := ScanFrom(src, s.next, s.line);
    assert [] + rest.diagnostics == rest.diagnostics;
  }

  /** Scanning from a blank character goes on from the next one, a newline counted. */
  lemma ScanBlank(src: string, i: nat, line: nat, after: nat)
    requires i < |src| && IsBlank(src[i]) && after == if src[i] == '\n' then line + 1 else line
    ensures ScanFrom(src, i, line) == ScanFrom(src, i + 1, after)
  {
    BlankStep(src, i, line);
    ScanQuiet(src, i, line);
  }

  /** A line comment produces nothing: scanning goes on from the newline that ends it. */
  lemma ScanComment(src: string, i: nat, line: nat, end: nat)
    requires i + 1 < |src| && src[i] == '/' && src[i + 1] == '/' && end == Until(src, i + 2, '\n')
    ensures ScanFrom(src, i, line) == ScanFrom(src, end, line)
  {
    assert LexToken(src, i, line) == SlashOrComment(src, i, line);
    ScanQuiet(src, i, line);
  }

  /** A punctuation character is a token of its own, on the current line. */
  lemma ScanPunctuation(src: string, i: nat, line: nat)
    requires i < |src| && PunctuationKind(src[i]).Some?
    ensures var rest := ScanFrom(src, i + 1, line);
      ScanFrom(src, i, line) == Scan([Token(PunctuationKind(src[i]).value, [src[i]], line)] + rest.tokens,
                                     [Span(i, i + 1)] + rest.spans, rest.diagnostics, rest.line)
  {
    PunctuationStep(src, i, line);
    ScanEmits(src, i, line);
    assert src[i..i + 1] == [src[i]];
  }

  /** An operator character is a token of its own, or of two characters with a following `=`. */
  lemma ScanOperator(src: string, i: nat, line: nat)
    requires i < |src| && OperatorKinds(src[i]).Some?
    ensures var two := CharAt(src, i + 1) == '=';
      var next := if two then i + 2 else i + 1;
      var rest := ScanFrom(src, next, line);
      ScanFrom(src, i, line) == Scan([Token(if two then OperatorKinds(src[i]).value.1 else OperatorKinds(src[i]).value.0,
                                            if two then [src[i], '='] else [src[i]], line)] + rest.tokens,
                                     [Span(i, next)] + rest.spans, rest.diagnostics, rest.line)
  {
    assert PunctuationKind(src[i]).None?;
    ScanEmits(src, i, line);
    if CharAt(src, i + 1) == '=' {
      assert src[i..i + 2] == [src[i], '='];
    } else {
      assert src[i..i + 1] == [src[i]];
    }
  }

  /** A number literal is a token whose payload is its lexeme. */
  lemma ScanNumber(src: string, i: nat, line: nat, end: nat)
    requires i < |src| && IsDigit(src[i]) && end == NumberEnd(src, i)
    ensures var rest := ScanFrom(src, end, line);
      ScanFrom(src, i, line) == Scan([Token(Number(src[i..end]), src[i..end], line)] + rest.tokens,
                                     [Span(i, end)] + rest.spans, rest.diagnostics, rest.line)
  {
    assert PunctuationKind(src[i]).None? && OperatorKinds(src[i]).None?;
    ScanEmits(src, i, line);
  }

  /** A terminated string literal is one step: a token whose payload lies between the quotes. */
  lemma StringStep(src: string, i: nat, line: nat, close: nat, after: nat)
    requires i < |src| && src[i] == '"' && close == Until(src, i + 1, '"') && close < |src|
    requires after == line + Lines(src, i + 1, close)
    ensures LexToken(src, i, line) == Lexed(close + 1, after, Some(String(src[i + 1..close])), None)
  {
    assert PunctuationKind(src[i]).None? && OperatorKinds(src[i]).None?;
  }

  /** A terminated string literal is a token whose payload lies between the quotes; its lines are counted. */
  lemma ScanString(src: string, i: nat, line: nat, close: nat, after: nat)
    requires i < |src| && src[i] == '"' && close == Until(src, i + 1, '"') && close < |src|
    requires after == line + Lines(src, i + 1, close)
    ensures var rest := ScanFrom(src, close + 1, after);
      ScanFrom(src, i, line) == Scan([Token(String(src[i + 1..close]), src[i..close + 1], after)] + rest.tokens,
                                     [Span(i, close + 1)] + rest.spans, rest.diagnostics, rest.line)
  {
    StringStep(src, i, line, close, after);
    var s := LexToken(src, i, line);
    assert s.next == close + 1 && s.line == after;
    ScanEmits(src, i, line);
  }

  /** A string literal's lexeme is its payload in quotes, and the payload holds no quote. */
  lemma StringSpells(src: string, start: nat, line: nat)
    requires start < |src| && src[start] == '"'
    ensures var r := LexerSpec.StringLiteral(src, start, line);
      r.kind.Some? ==> Spells(r.kind.value, src[start..r.next])
  {
    var close := Until(src, start + 1, '"');
    UntilSkips(src, start + 1, '"');
    if close < |src| {
      assert src[start..close + 1] == "\"" + src[start + 1..close] + "\"";
    }
  }

  /** A number literal's lexeme is a digit run, then optionally a `.` and a digit run. */
  lemma NumberSpells(src: string, start: nat, line: nat)
    requires start < |src| && IsDigit(src[start])
    ensures var r := LexerSpec.NumberLiteral(src, start, line);
      r.kind.Some? ==> Spells(r.kind.value, src[start..r.next])
  {
    var e := NumberEnd(src, start);
    var intEnd := DigitsEnd(src, start + 1);
    var text := src[start..e];
    var k := intEnd - start;
    DigitsEndDigits(src, start + 1);
    assert text[..k] == src[start..intEnd];
    assert IsDigitRun(text[..k]);
    if e != intEnd {
      DigitsEndDigits(src, intEnd + 1);
      assert text[k] == src[intEnd] == '.';
      assert text[k + 1..] == src[intEnd + 1..e];
      assert IsDigitRun(text[k + 1..]);
    }
    assert 0 < k <= |text| && IsDigitRun(text[..k]) && (k == |text| || (text[k] == '.' && k + 1 < |text| && IsDigitRun(text[k + 1..])));
  }

  /** The token a scanning step emits is spelled by the text it consumed. */
  lemma StepSpells(src: string, start: nat, line: nat)
    requires start < |src|
    ensures var r := LexToken(src, start, line);
      r.kind.Some? ==> Spells(r.kind.value, src[start..r.next])
  {
    var c := src[start];
    if PunctuationKind(c).Some? {
      PunctuationSpelling(c);
      assert src[start..start + 1] == [c];
    } else if OperatorKinds(c).Some? {
      OperatorSpelling(c);
      assert src[start..start + 1] == [c];
      if CharAt(src, start + 1) == '=' {
        assert src[start..start + 2] == [c, '='];
      }
    } else if c == '/' {
      assert src[start..start + 1] == [c];
    } else if IsBlank(c) {
    } else if c == '"' {
      StringSpells(src, start, line);
    } else if IsDigit(c) {
      NumberSpells(src, start, line);
    }
  }

  /**
   * Maximal munch: a one-character `!`, `=`, `<` or `>` token is never
   * followed by `=`, a `/` is a `/` token exactly when no `/` follows it,
   * a number is never followed by a digit (nor, when it has no fraction, by
   * a `.` and a digit), and a comment runs up to the end of its line and no
   * further.
   */
  lemma StepMaximalMunch(src: string, start: nat, line: nat)
    requires start < |src|
    ensures var r := LexToken(src, start, line);
      && (r.kind in {Some(Bang), Some(Equal), Some(Less), Some(Greater)} ==> CharAt(src, r.next) != '=')
      && (r.kind == Some(Slash) ==> CharAt(src, r.next) != '/')
      && (src[start] == '/' && CharAt(src, start + 1) != '/' ==> r.kind == Some(Slash) && r.next == start + 1)
      && (r.kind.Some? && r.kind.value.Number? ==>
            !IsDigit(CharAt(src, r.next))
            && ('.' !in r.kind.value.literal ==> !(CharAt(src, r.next) == '.' && IsDigit(CharAt(src, r.next + 1)))))
      && (src[start] == '/' && r.kind == None ==> CharAt(src, r.next) == '\n' || r.next == |src|)
  {
    var r := LexToken(src, start, line);
    if IsDigit(src[start]) {
      var intEnd := DigitsEnd(src, start + 1);
      if r.next != intEnd {
        DigitsEndDigits(src, start + 1);
        assert src[start..r.next][intEnd - start] == '.';
      }
    }
  }

  /**
   * A step reports an error exactly for a stray character or for a string
   * with no closing quote; the latter consumes the rest of the source.
   */
  lemma StepErrors(src: string, start: nat, line: nat)
    requires start < |src|
    ensures var r := LexToken(src, start, line);
      && (r.error == Some("Unexpected character") <==> Stray(src[start]))
      && (r.error == Some("Unterminated string") <==> src[start] == '"' && Until(src, start + 1, '"') == |src|)
      && (r.error.Some? ==> r.error == Some("Unexpected character") || r.error == Some("Unterminated string"))
      && (r.error == Some("Unterminated string") ==> r.next == |src|)
  {
  }

  /**
   * Every token scanned from `from` on lies at its span in the source, its
   * lexeme is exactly that slice, it is spelled as its kind says, and its
   * line is the starting line plus the newlines up to the end of its span.
   */
  ghost predicate Located(src: string, from: nat, line: nat, r: Scan) {
    && |r.spans| == |r.tokens|
    && forall k :: 0 <= k < |r.tokens| ==>
      && from <= r.spans[k].start < r.spans[k].end <= |src|
      && r.tokens[k].lexeme == src[r.spans[k].start..r.spans[k].end]
      && r.tokens[k].line == line + Lines(src, from, r.spans[k].end)
      && Spells(r.tokens[k].kind, r.tokens[k].lexeme)
  }

  /** Spans follow one another without overlapping. */
  ghost predicate Ordered(spans: seq<Span>) {
    forall k :: 0 <= k < |spans| - 1 ==> spans[k].end <= spans[k + 1].start
  }

  lemma {:induction false} ScanLocated(src: string, i: nat, line: nat)
    requires i <= |src|
    ensures Located(src, i, line, ScanFrom(src, i, line))
    ensures Ordered(ScanFrom(src, i, line).spans)
    decreases |src| - i
  {
    if i < |src| {
      var r := ScanFrom(src, i, line);
      var s := LexToken(src, i, line);
      var rest := ScanFrom(src, s.next, s.line);
      ScanLocated(src, s.next, s.line);
      StepLines(src, i, line);
      LocatedShift(src, i, line, s.next, s.line, rest);
      if s.kind.Some? {
        StepSpells(src, i, line);
        LocatedCons(src, i, line, s.next, Token(s.kind.value, src[i..s.next], s.line), rest, r);
      } else {
        assert r.tokens == rest.tokens && r.spans == rest.spans;
      }
    }
  }

  /** Tokens located from a later position with a later line are located from an earlier one too. */
  lemma LocatedShift(src: string, from: nat, line: nat, next: nat, nextLine: nat, rest: Scan)
    requires from <= next <= |src| && nextLine == line + Lines(src, from, next)
    requires Located(src, next, nextLine, rest)
    ensures Located(src, from, line, rest)
  {
    forall k | 0 <= k < |rest.tokens|
      ensures rest.tokens[k].line == line + Lines(src, from, rest.spans[k].end)
    {
      LinesSplit(src, from, next, rest.spans[k].end);
    }
  }

  /** A located token in front of located tokens that follow its span keeps the scan located and ordered. */
  lemma LocatedCons(src: string, from: nat, line: nat, next: nat, t: Token, rest: Scan, r: Scan)
    requires from < next <= |src| && t.lexeme == src[from..next]
    requires t.line == line + Lines(src, from, next) && Spells(t.kind, t.lexeme)
    requires Located(src, from, line, rest) && Ordered(rest.spans)
    requires |rest.spans| > 0 ==> next <= rest.spans[0].start
    requires r.tokens == [t] + rest.tokens && r.spans == [Span(from, next)] + rest.spans
    ensures Located(src, from, line, r) && Ordered(r.spans)
  {
    forall k | 0 < k < |r.tokens|
      ensures r.tokens[k] == rest.tokens[k - 1] && r.spans[k] == rest.spans[k - 1]
    {
    }
  }

  /** Lines never decrease along the token list, and `Eof` is on the last line. */
  lemma TokensOfShape(src: string)
    ensures var t := TokensOf(src);
      && |t| >= 1
      && t[|t| - 1] == Token(Eof, "", 1 + Lines(src, 0, |src|))
      && (forall k :: 0 <= k < |t| - 1 ==> t[k].kind != Eof && Spells(t[k].kind, t[k].lexeme))
      && (forall k :: 0 <= k < |t| - 1 ==> t[k].line <= t[k + 1].line)
  {
    var r := ScanFrom(src, 0, 1);
    var t := TokensOf(src);
    ScanLocated(src, 0, 1);
    ScanLine(src, 0, 1);
    forall k | 0 <= k < |t| - 1
      ensures t[k].kind != Eof && Spells(t[k].kind, t[k].lexeme)
      ensures t[k].line <= t[k + 1].line
    {
      assert t[k] == r.tokens[k];
      if k + 1 < |t| - 1 {
        assert t[k + 1] == r.tokens[k + 1];
        LinesSplit(src, 0, r.spans[k].end, r.spans[k + 1].end);
      } else {
        LinesSplit(src, 0, r.spans[k].end, |src|);
      }
    }
  }

  /** Every diagnostic is one of the scanner's two messages. */
  lemma {:induction false} ScanMessages(src: string, i: nat, line: nat)
    requires i <= |src|
    ensures forall d :: d in ScanFrom(src, i, line).diagnostics ==>
      d.message == "Unexpected character" || d.message == "Unterminated string"
    decreases |src| - i
  {
    if i < |src| {
      var s := LexToken(src, i, line);
      ScanMessages(src, s.next, s.line);
    }
  }

  /** A stray first character makes the scan report an error. */
  lemma StrayReported(src: string)
    requires src != [] && Stray(src[0])
    ensures HadErrors(src)
  {
    ScanFromUnfold(src, 0, 1);
  }

  /** Blank space produces nothing; the newlines in it are counted. */
  lemma {:induction false} BlanksSkipped(src: string, i: nat, j: nat, line: nat, after: nat)
    requires i <= j <= |src|
    requires forall k :: i <= k < j ==> IsBlank(src[k])
    requires after == line + Lines(src, i, j)
    ensures ScanFrom(src, i, line) == ScanFrom(src, j, after)
    decreases j - i
  {
    if i < j {
      var mid := line + Lines(src, i, j - 1);
      BlanksSkipped(src, i, j - 1, line, mid);
      ScanBlank(src, j - 1, mid, after);
    }
  }

  /** `tokens` are the one-character tokens of the punctuation in `src[i..]`, one per character. */
  ghost predicate PunctuationTokens(src: string, i: nat, line: nat, tokens: seq<Token>)
    requires i <= |src|
  {
    && |tokens| == |src| - i
    && forall k :: i <= k < |src| ==>
      PunctuationKind(src[k]).Some? && tokens[k - i] == Token(PunctuationKind(src[k]).value, [src[k]], line)
  }

  lemma PunctuationCons(src: string, i: nat, line: nat, tokens: seq<Token>, rest: seq<Token>)
    requires i < |src| && PunctuationKind(src[i]).Some?
    requires tokens == [Token(PunctuationKind(src[i]).value, [src[i]], line)] + rest
    requires PunctuationTokens(src, i + 1, line, rest)
    ensures PunctuationTokens(src, i, line, tokens)
  {
  }

  /** A source made only of one-character punctuation yields one token per character, without errors. */
  lemma {:induction false} PunctuationOnly(src: string, i: nat, line: nat)
    requires i <= |src|
    requires forall k :: i <= k < |src| ==> PunctuationKind(src[k]).Some?
    ensures var r := ScanFrom(src, i, line);
      PunctuationTokens(src, i, line, r.tokens) && r.diagnostics == [] && r.line == line
    decreases |src| - i
  {
    if i < |src| {
      ScanPunctuation(src, i, line);
      PunctuationOnly(src, i + 1, line);
      PunctuationCons(src, i, line, ScanFrom(src, i, line).tokens, ScanFrom(src, i + 1, line).tokens);
    }
  }
}
