# rlox front end: scanner and expression parser

This project models the two parts of the rlox front end. The first is the
scanner in `src/scanner.rs`, which turns source text into tokens. The second
is the recursive-descent expression parser in `src/parser.rs`, together with
its printer `pretty_print`. The project then proves properties of both.

- **Scanner.** `Lexer.Scanner` is a class with the Rust struct's fields:
  `source`, `tokens`, `hadErrors`, `start`, `current` and `line`. It also has
  a ghost list of the diagnostics `error` would print. Its methods are those
  of `impl Scanner`, with the same `while` loops. Each method is proved
  against a functional specification:
  - `LexerSpec.LexToken` is one `scan_token` call;
  - `LexerSpec.ScanFrom` is the loop of `scan_tokens`;
  - `LexerSpec.TokensOf` and `LexerSpec.HadErrors` are a whole scan of a
    fresh scanner.

  The scanner's promises are lemmas about that specification, in
  `LexerProperties`. The unit tests of `scanner.rs` are lemmas in
  `LexerExamples`.
- **Parser.** `Parsing.Parser` is a class holding the token vector (it is
  never changed) and the cursor `current`. It has the primitives (`IsAtEnd`,
  `Peek`, `Previous`, `Advance`, `Consume`, `MatchAnyOf`) and one method per
  grammar rule.
  - The binary rules run the source's `while` loop that folds a left-nested
    `Binary`.
  - Each rule method is proved to return `Grammar.Descend` for its rule and
    cursor position, and to leave the cursor where that result says.
  - `Grammar` defines which trees each rule derives (`Shape`) and how a tree
    is spelled in tokens (`SpelledAt`). It proves that `Descend` returns a
    tree exactly when the tokens spell a tree of that rule (`ParseIff`).
  - `Ast` holds the tree type and `pretty_print`.
- **A defect in the source.** The source's `(` branch does not consume the
  `(`. It is modelled as written in `AsWritten`, and a corrected version is
  used everywhere else (see "## Findings").

A parse can end in one of three outcomes:
- `Done(expr, next)`, a tree;
- `Error(error, at)`, the `Err` value that only `primary` returns;
- `Abort(error, at)`, the panic raised when `unary` calls `unwrap()` on
  such an `Err` (`src/parser.rs:153`).

`is_digit` is `Tokens.IsDigit`. The kinds follow `TokenKind` in
`src/scanner.rs`, except that a `Number` keeps the matched digits instead
of an `f32`.

Sources are taken to be ASCII. This is the only case where the Rust code's
character indices (`peek`, `advance`) and byte indices (`is_at_end`, the
slice in `add_token`) agree.

Two choices follow the code where a reader might expect otherwise:
- A token's `line` is the line the scanner is on when `add_token` runs. For
  a string spanning several lines, that is the line of its closing quote,
  not of its opening one (`LexerExamples.MultiLineStringLiteral`).
- `pretty_print` writes no parentheses and no spaces. A grouping prints as
  its inner expression alone.

## Model

| member | source | states |
|---|---|---|
| Lexer.Scanner.constructor | src/scanner.rs:81-90 | a new scanner has no tokens, no errors, both cursors at 0 and the line counter at 1 |
| Lexer.Scanner.ScanTokens | src/scanner.rs:92-100 | the loop runs to the end of the source; the tokens gained are exactly those `ScanFrom` says, followed by one `Eof` on the final line; the error flag is raised exactly when a diagnostic was reported and is never cleared |
| Lexer.Scanner.Error | src/scanner.rs:102-105 | the error flag is set and the line and message are recorded |
| Lexer.Scanner.AddToken | src/scanner.rs:107-113 | one token is pushed whose lexeme is the slice `source[start..current]`, on the current line |
| Lexer.Scanner.ScanToken | src/scanner.rs:115-192 | one dispatch on the character at the cursor moves the cursor and line counter, pushes a token and reports an error exactly as one step of `LexToken` says; the line invariant is kept |
| Lexer.Scanner.SkipComment | src/scanner.rs:170-174 | the comment loop stops at the first newline after the cursor, without consuming it, or at the end |
| Lexer.Scanner.NumberLiteral | src/scanner.rs:198-217 | the cursor ends at `NumberEnd`, after the digit run and a fraction only when a digit follows the `.`; one `Number` token is pushed whose payload is its lexeme |
| Lexer.Scanner.SkipDigits | src/scanner.rs:199-201 | the digit loop stops at the end of the maximal digit run |
| Lexer.Scanner.StringLiteral | src/scanner.rs:219-239 | the cursor, line counter, token list and error flag end as `LexerSpec.StringLiteral` says: a terminated string adds one `String` token, an unterminated one reports "Unterminated string" and adds nothing |
| Lexer.Scanner.SkipStringBody | src/scanner.rs:220-226 | the string loop stops at the next `"` or the end, and the line counter rises by the newlines it passed |
| Lexer.Scanner.Peek | src/scanner.rs:242-244 | the character at the cursor, or NUL at the end |
| Lexer.Scanner.PeekNext | src/scanner.rs:246-248 | the character after the cursor, or NUL past the end |
| Lexer.Scanner.AdvanceIfMatches | src/scanner.rs:251-263 | the cursor moves by one exactly when the character there is the expected one, and the result says whether it did |
| Lexer.Scanner.Advance | src/scanner.rs:265-268 | the cursor always moves by one; the character passed is returned, or nothing at the end |
| Lexer.Scanner.IsAtEnd | src/scanner.rs:270-272 | true exactly when the cursor is at or past the source length |
| LexerSpec.LexToken | src/scanner.rs:115-192 | every step consumes at least one character and stays within the source, so the scan loop terminates; no step both adds a token and reports an error |
| LexerSpec.DigitsEnd | src/scanner.rs:199-201 | the end of the digit run lies within the source and is followed by no digit |
| LexerSpec.Until | src/scanner.rs:172 | the first position at or after the start that holds the stop character, or the end |
| LexerSpec.NumberEnd | src/scanner.rs:198-211 | a number lexeme ends after its first digit and within the source |
| LexerSpec.OneOrTwo | src/scanner.rs:135-166 | a one-or-two-character operator stays within the source |
| LexerSpec.SlashOrComment | src/scanner.rs:169-178 | `/` consumes at least one character and stays within the source |
| LexerSpec.StringLiteral | src/scanner.rs:219-239 | a string literal consumes at least its quote and stays within the source |
| LexerSpec.NumberLiteral | src/scanner.rs:198-217 | a number literal consumes at least one digit and stays within the source |
| LexerSpec.ScanFrom | src/scanner.rs:93-96 | the scan has one source span per token |
| LexerSpec.TokensOf | src/scanner.rs:92-100 | the tokens of a fresh scanner after `scan_tokens` always end with one `Eof`, with an empty lexeme, on line 1 plus the number of newlines in the source |
| LexerSpec.HadErrors | src/scanner.rs:81-105 | the error flag of a fresh scanner is raised only when the source holds a stray character or a `"`; `error` is the only place it is set |
| LexerSpec.StepLines | src/scanner.rs:183 | every step raises the line counter by exactly the newlines it consumed, inside strings included |
| LexerSpec.StringLines | src/scanner.rs:220-226 | a string step, terminated or not, raises the line counter by exactly the newlines it consumed |
| LexerSpec.NumberLines | src/scanner.rs:198-211 | a number step raises the line counter by exactly the newlines in its lexeme, of which there are none |
| LexerSpec.UntilSkips | src/scanner.rs:172 | no character before the stop position is the stop character |
| LexerSpec.DigitsEndDigits | src/scanner.rs:199-201 | every character of a digit run is a digit |
| LexerProperties.PunctuationSpelling | src/scanner.rs:123-132 | each of the ten punctuation characters is the fixed spelling of its kind |
| LexerProperties.OperatorSpelling | src/scanner.rs:135-166 | `!`, `=`, `<` and `>` spell their one-character kind, and followed by `=` their two-character kind |
| LexerProperties.PunctuationStep | src/scanner.rs:123-132 | a punctuation character is one step that adds its kind and nothing else |
| LexerProperties.BlankStep | src/scanner.rs:181-183 | a blank character is skipped, and a newline raises the line counter by one |
| LexerProperties.ScanBlank | src/scanner.rs:181-183 | scanning from a blank character is scanning from the next character, with one more line after a newline |
| LexerProperties.ScanComment | src/scanner.rs:169-178 | `//` adds nothing, and scanning goes on from the newline that ends the comment, which is still counted |
| LexerProperties.ScanPunctuation | src/scanner.rs:123-132 | a punctuation character puts its one-character token, on the current line, in front of the rest of the scan |
| LexerProperties.ScanOperator | src/scanner.rs:135-166 | an operator character followed by `=` gives the two-character kind with a two-character lexeme; otherwise the one-character kind, with the next character left for the rest of the scan |
| LexerProperties.ScanNumber | src/scanner.rs:198-216 | a number literal puts one `Number` token, with its lexeme as payload, in front of the scan from where it ends |
| LexerProperties.StringStep | src/scanner.rs:219-238 | a terminated string is one step ending after its closing quote, with the payload between the quotes and the lines inside it counted |
| LexerProperties.ScanString | src/scanner.rs:219-238 | a terminated string puts its `String` token in front of the scan that continues after the closing quote, on a line raised by its newlines |
| LexerProperties.StringSpells | src/scanner.rs:233-238 | a string's lexeme is its payload between two quotes, with embedded newlines kept and no quote inside |
| LexerProperties.NumberSpells | src/scanner.rs:198-211 | a number's lexeme is a digit run, optionally followed by a `.` and a non-empty digit run |
| LexerProperties.StepSpells | src/scanner.rs:107-113 | the token a step adds is spelled by exactly the characters the step consumed |
| LexerProperties.StepMaximalMunch | src/scanner.rs:135-178 | no one-character `!`/`=`/`<`/`>` is followed by `=`; a `/` is a one-character `/` token when no `/` follows it, and no `/` token is followed by `/`; and no number by a digit; a number without a fraction is not followed by a `.` and a digit; a comment ends at a newline or at the end of the source |
| LexerProperties.StepErrors | src/scanner.rs:190 | a step reports "Unexpected character" exactly for a character outside the dispatch table (letters included), and "Unterminated string" exactly for a `"` without a closing quote, which consumes the rest of the source; no other message is reported |
| LexerSpec.ScanLine | src/scanner.rs:183 | the final line counter is the starting line plus every newline in the rest of the source |
| LexerProperties.ScanLocated | src/scanner.rs:93-96 | every scanned token's lexeme is exactly its span of the source; it is spelled as its kind says and lies on the starting line plus the newlines up to the span's end; spans are increasing and do not overlap |
| LexerProperties.TokensOfShape | src/scanner.rs:92-100 | a whole scan ends with exactly one `Eof`, with an empty lexeme, on line 1 plus the number of newlines; no other token is `Eof`; every token is spelled by its lexeme; token lines never decrease |
| LexerProperties.ScanMessages | src/scanner.rs:102-105 | every diagnostic carries one of the scanner's two messages |
| LexerSpec.ScanWithoutErrors | src/scanner.rs:190 | a source with no stray character and no `"` is scanned without diagnostics |
| LexerProperties.StrayReported | src/scanner.rs:190 | a source beginning with a stray character sets the error flag |
| LexerProperties.BlanksSkipped | src/scanner.rs:181-183 | a run of blank characters adds nothing, and only its newlines are counted |
| LexerProperties.PunctuationOnly | src/scanner.rs:123-132 | a source of punctuation characters only gives one token per character, in order and on one line, without errors |
| Tokens.DigitCharacters | src/scanner.rs:194-196 | `is_digit` holds exactly for the ten characters `0` to `9` |
| LexerExamples.EmptySource | src/scanner.rs:286-293 | the empty source gives exactly `[Eof]` on line 1 and no error |
| LexerExamples.SingleCharTokens | src/scanner.rs:296-301 | `{}()+` gives its five tokens plus `Eof`, six in all, without errors |
| LexerExamples.MultiLine | src/scanner.rs:304-314 | four lines of tokens give six tokens with `<=` as one token, on lines 1 to 4 |
| LexerExamples.EndOfStreamLookahead | src/scanner.rs:317-324 | `<` at the end of the source gives `[Less, Eof]` |
| LexerExamples.Comments | src/scanner.rs:327-340 | comments after tokens and on lines of their own give three tokens in all |
| LexerExamples.StringLiteral | src/scanner.rs:343-352 | the indented source holding `"blop"` gives a `String` with payload `blop` on line 2 and `Eof` on line 3, without errors |
| LexerExamples.MultiLineStringLiteral | src/scanner.rs:355-368 | a string spanning two lines keeps its newline and the indentation of its second line in the payload, and its token carries the line of the closing quote |
| LexerExamples.OneStringLiteral | src/scanner.rs:92-100 | a source that is blanks, one closed string literal and blanks scans to that `String` token and `Eof`, without errors |
| LexerExamples.Numbers | src/scanner.rs:371-380 | `7 42 3.14` gives three `Number` tokens with payloads `7`, `42` and `3.14` |
| LexerExamples.UnexpectedCharacter | src/scanner.rs:190 | a stray `@` is reported at line 1 and dropped, and scanning goes on |
| LexerExamples.UnterminatedString | src/scanner.rs:228-231 | a string without a closing quote is reported and gives no token |
| Ast.PrettyPrint | src/parser.rs:182-205 | printing a tree writes the lexemes of its literal and operator tokens, left to right, and nothing else: no parentheses and no spaces |
| Ast.PrintLiteral | src/parser.rs:211-216 | the literal `42` prints as `42` |
| Ast.PrintUnary | src/parser.rs:218-226 | `-` applied to `42` prints as `-42` |
| Grammar.Descend | src/parser.rs:84-179 | a rule's tree consumes at least one token and never the final `Eof`; a failure leaves the cursor no earlier than it started; only `primary` returns an `Err`, every other rule panics instead |
| Grammar.Fold | src/parser.rs:92-96 | the loop of a binary rule never moves the cursor back and never past the final `Eof` |
| Grammar.ShapeOperator | src/parser.rs:22-32 | a tree a rule derives holds no binary operator of a looser rule at its top |
| Grammar.ShapeLift | src/parser.rs:22-32 | every tree of the rule below a binary rule is also a tree of that rule |
| Grammar.DescendSound | src/parser.rs:84-179 | a tree a rule returns is one that rule derives, spelled by exactly the tokens consumed, and the next token cannot continue it |
| Grammar.FoldSound | src/parser.rs:88-143 | the loop of a binary rule keeps that soundness: what it folds onto a derived left operand is again derived and spelled by the tokens consumed |
| Grammar.DescendComplete | src/parser.rs:84-179 | from the first token of any tree a rule derives, followed by a token that cannot continue it, the rule returns exactly that tree and leaves the cursor after it |
| Grammar.ParseIff | src/parser.rs:22-32 | a rule returns a tree with a given end exactly when the tokens from the cursor to that end spell a tree the rule derives, followed by a token that cannot continue it; so the parse is unambiguous |
| Grammar.NoOperand | src/parser.rs:177 | at a token that starts no operand (`Eof` included), `primary` returns `UnexpectedToken` at that token and every other rule panics with it |
| Grammar.ShapeBracketFree | src/parser.rs:161-168 | the trees the grammar derives hold no bracket token |
| Grammar.SpelledLeaves | src/parser.rs:169-176 | the tokens of a spelled tree are the tokens spelling it, brackets left out |
| Grammar.PrintsConsumed | src/parser.rs:182-205 | printing a parsed tree writes the lexemes of the tokens the parse consumed, in order, leaving out the brackets |
| Grammar.PrintsConsumedPlain | src/parser.rs:84-168 | for tokens without brackets, printing the parsed tree writes exactly the lexemes of the tokens consumed, in order |
| Parsing.Operators | src/parser.rs:92 | no binary rule lists `Eof` among its operators |
| Parsing.OperatorsMatch | src/parser.rs:105-110 | the kinds each rule's loop matches are exactly that rule's operators: `!=`/`==`, `>`/`>=`/`<`/`<=`, `+`/`-`, `*`/`/` |
| Parsing.Parser.constructor | src/parser.rs:36-41 | the parser holds the given tokens with the cursor at 0 |
| Parsing.Parser.IsAtEnd | src/parser.rs:45-47 | true exactly when the token at the cursor is `Eof`, as it is on the last token |
| Parsing.Parser.Peek | src/parser.rs:49-51 | the token at the cursor |
| Parsing.Parser.Previous | src/parser.rs:53-55 | the token before the cursor |
| Parsing.Parser.Advance | src/parser.rs:57-63 | the cursor moves by one unless it is on `Eof`, and the token before the new cursor is returned |
| Parsing.Parser.Consume | src/parser.rs:65-71 | when the token at the cursor has the kind, it advances and returns the token passed; otherwise the cursor stays and nothing is returned |
| Parsing.Parser.MatchAnyOf | src/parser.rs:73-80 | the result is true exactly when the token at the cursor has one of the kinds, and the cursor moves by one exactly then (unless it is on `Eof`) |
| Parsing.Parser.Expression | src/parser.rs:84-86 | returns what `equality` returns from the cursor, and leaves the cursor after the tree |
| Parsing.Parser.Equality | src/parser.rs:88-99 | the loop over `!=`/`==` returns `Descend` for `equality`, with the cursor after the tree |
| Parsing.Parser.Comparison | src/parser.rs:101-117 | the loop over `>`/`>=`/`<`/`<=` returns `Descend` for `comparison`, with the cursor after the tree |
| Parsing.Parser.Addition | src/parser.rs:119-130 | the loop over `+`/`-` returns `Descend` for `addition`, with the cursor after the tree |
| Parsing.Parser.Multiplication | src/parser.rs:132-143 | the loop over `*`/`/` returns `Descend` for `multiplication`, with the cursor after the tree |
| Parsing.Parser.Unary | src/parser.rs:145-155 | returns `Descend` for `unary`: a prefix operator is consumed and applied to a nested `unary`, and an `Err` of `primary` becomes a panic |
| Parsing.Parser.Primary | src/parser.rs:157-179 | returns `Descend` for `primary`: a literal advances by one; `(` expression `)` gives a grouping with both brackets consumed; a missing `)` gives `MissingParenthesis`; any other token, `Eof` included, gives `UnexpectedToken` without advancing |
| AsWritten.DescendAsWritten | src/parser.rs:169-170 | the descent with the `(` branch as written, fuelled: a tree it returns consumes at least one token, and a failure lies at or after the cursor |
| AsWritten.FoldAsWritten | src/parser.rs:88-143 | its loops, fuelled, never move the cursor back |
| AsWritten.NeverReturns | src/parser.rs:169-170 | from a `(`, the code as written returns from no rule with any amount of fuel |
| AsWritten.AgreesWithoutParens | src/parser.rs:84-178 | on tokens with no `(` from the cursor on, the code as written returns, for every rule, what the corrected descent returns, once it has more fuel than the remaining tokens plus the rule's precedence level |
| AsWritten.FoldAgreesWithoutParens | src/parser.rs:88-143 | likewise for the loop of each binary rule, from any position and left operand |
| AsWritten.NoLeftParenAfter | src/parser.rs:169-170 | a stretch of tokens without `(` has none from any later position either |
| AsWritten.GroupedLiteral | src/parser.rs:169-176 | on `(1)` the code as written does not return, and the corrected descent returns the grouping of `1` |
| ParserExamples.LeftNested | src/parser.rs:119-130 | `1-2-3` parses as `(1-2)-3` and prints as `1-2-3` |
| ParserExamples.Precedence | src/parser.rs:119-143 | `1+2*3` parses with `*` below `+` |
| ParserExamples.PrefixesNest | src/parser.rs:145-152 | `!-1` parses as `!(-1)` |
| ParserExamples.GroupedOperand | src/parser.rs:169-176 | `(1==2)*3` parses with the grouping as the left operand of `*`, and prints as `1==2*3` |
| ParserExamples.MissingParenthesisAborts | src/parser.rs:171-172 | on `(1`, `primary` returns `MissingParenthesis` at `Eof` and `equality` panics with it |
| ParserExamples.EofAborts | src/parser.rs:153 | on a lone `Eof`, `primary` returns `UnexpectedToken` and `equality` panics with it |
| ParserExamples.StopsBeforeTrailingToken | src/parser.rs:88-99 | on `1 2`, `equality` returns the literal `1` and leaves the cursor on `2` |

## Left out

- The `println!` in `Scanner::error` is not modelled. The line and message it would print are kept as a ghost list instead.
- The `f32` parse of number lexemes (`parse::<f32>().unwrap()`) is floating point and is not modelled. A `Number` keeps its lexeme.
- Non-ASCII input is left out. Sources are taken to be ASCII, so that character and byte indices agree.
- The `None => return` arm of `scan_token` is not modelled. It is reached only when the cursor is at the end, which its only caller excludes, so `ScanToken` requires the cursor to be inside the source.
- Identifiers, keywords and statements are not modelled, because the code has no rule for them. Letters are stray characters.
- The `_` arm of `pretty_print` is not modelled, because the four variants are exhaustive.
- `src/main.rs` is left out: argument handling, file reading, an empty prompt loop and printing.
- `src/parser.rs` calls `clone()` on `Token`, which is not `Clone`, so the file as shown does not compile. The model reads the clone as a copy of the token.
- `main.rs` calls `parse` and `ast_dump`, which do not exist in `src/parser.rs` and are not modelled.
- The panics of `peek` past the end and of `previous` at cursor 0 are out of reach. The parser is only built on token vectors that end with `Eof` (`Parsable`), as the scanner produces.
- The panic of `unary`'s `unwrap()` is not modelled as a process abort. It is the `Abort` outcome, so the model returns where the program would stop.
- `LexerExamples.MultiLine` and `LexerExamples.Comments` are stated on shortened sources: the Rust raw strings' leading indentation is shortened to one space or none, and the comment texts are shortened. Blank characters and comment text produce nothing, so the tokens and lines are the same. The other tests use their sources as written.
- AsWritten.DescendAsWritten: the descent as written does not terminate on `(`, so it is given a fuel bound, and `None` stands for "has not returned when the fuel runs out". The corrected descent needs no fuel.

## Findings

| source | as written | input that shows it | evidently intended | confidence | as-written member | corrected member |
|---|---|---|---|---|---|---|
| src/parser.rs:169-170 | the `LeftParen` arm of `primary` calls `expression()` without consuming the `(`, so the descent re-enters `primary` on the same `(` and never returns | the tokens of `(1)`: `(`, `1`, `)`, `Eof` | consume the `(` before parsing the inner expression, as `"(" expression ")"` in the grammar at line 32 requires | not executed | AsWritten.NeverReturns | Parsing.Parser.Primary |
