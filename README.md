# rlox lexer in Dafny

A model of the hand-written lexer of rlox, a Rust front end for the Lox
scripting language (`src/lexer.rs`). The lexer turns source text into a
sequence of tokens: punctuation, one- and two-character operators, `//`
comments, string literals, numbers, identifiers, the sixteen keywords,
whitespace runs, and two diagnostic tokens (`Unknown` for a character no
rule accepts, `Unexpected { line, col }` for an unterminated string).

The model has the same two layers as the source:

- `Lexer.Cursor` is the source's `Cursor`, a class whose fields (`input`,
  the stream position `pos`, `line`, `col`, `prev`) its methods update in
  place. Every character is consumed through `Next`, as in the source.
  `TakeWhile` and `EatWhile` are the `while let` loops. The closures with
  captured flags (`has_dot`, `escaped`) become a `Filter` value updated per
  character. `Lexer.Tokenize` drains a fresh cursor until `Eof`.
- Module `Scanner` gives the same operations as functions on a `State`
  value. Each state-changing method's `ensures` says that the method
  computes exactly the corresponding function of the old state. Modules `ScanFacts`,
  `Positions`, `TokenFacts` and `LexFacts` prove what the lexer promises
  about these functions in terms of the input characters. `Examples` proves
  the token sequences of a few whole inputs.

Three behaviours of the code that a Lox reader might not expect, which the
model keeps:

- An identifier must start with an ASCII letter. A leading `_` gives
  `Unknown` (`src/lexer.rs:161-163`), although Lox identifiers usually may
  start with `_`.
- `col` starts at 0 and is advanced before each read. So `(line, col)` is
  the 1-based position of the last consumed character, not of the next one.
  An unterminated string therefore reports the position of the last
  character of the input.
- The string scan's `escaped` flag only records whether the previous body
  character was a backslash. So in `"a\\"` the final quote is escaped and
  the string is unterminated (`Examples.EscapedBackslashThenQuote`).

`char::is_whitespace` is modelled exactly, as the Unicode White_Space set.
`is_digit(10)`, `is_ascii_alphabetic` and `is_ascii_alphanumeric` are the
ASCII classes.

## Model

| member | source | states |
|---|---|---|
| `Tokens.LookupFromMiss` | src/lexer.rs:177-195 | when no reserved-word arm is spelled as the whole lexeme, the fallback arm gives `Ident` of the lexeme |
| `Tokens.LookupFromHit` | src/lexer.rs:177-194 | when some arm is spelled as the whole lexeme, the result is the token of an arm with that spelling |
| `Tokens.ReservedEntry` | src/lexer.rs:177-194 | every reserved-word arm yields a keyword variant, and its word is that keyword's spelling |
| `Tokens.KeywordListed` | src/lexer.rs:177-194 | each of the sixteen keyword variants has an arm, under its own spelling |
| `Tokens.IdentOrKeyword` | src/lexer.rs:177-195 | the keyword match never yields a string or number literal, a comment, whitespace, end or diagnostic token |
| `Tokens.IdentOrKeywordExact` | src/lexer.rs:177-195 | a lexeme gives a keyword exactly when it spells one, and then the keyword it spells; otherwise it gives `Ident` of the whole lexeme |
| `Tokens.KeywordRoundTrip` | src/lexer.rs:177-195 | every keyword is found again from its own spelling |
| `Tokens.KeywordTextInjective` | src/lexer.rs:177-194 | no two arms share a reserved word |
| `Tokens.IdentByLength` | src/lexer.rs:177-195 | a lexeme shorter than two or longer than six characters is always an identifier |
| `Scanner.Steps` | src/lexer.rs:81-92 | `n` calls of `next` within the input consume exactly `n` characters |
| `Scanner.RunLength` | src/lexer.rs:241-252 | `take_while` never consumes past the end of the input |
| `Scanner.Scan` | src/lexer.rs:107-168 | `advance_token` returns `Eof` exactly when no input remains; every other token consumes at least one character and stays within the input |
| `ScanFacts.ScanTracks` | src/lexer.rs:81-92 | a cursor whose fields are those of a fresh cursor after `pos` characters keeps that property across every token but `Eof` |
| `ScanFacts.RunMaximal` | src/lexer.rs:241-261 | the comment, identifier and whitespace runs are the longest prefix of accepted characters |
| `ScanFacts.NumberRun` | src/lexer.rs:198-214 | the number run is digits with at most one dot, and it stops at a non-digit non-dot or at a second dot |
| `ScanFacts.StringRun` | src/lexer.rs:222-228 | the string run stops exactly at the first quote not preceded in the body by a backslash |
| `Positions.LineStart` | src/lexer.rs:81-92 | the start of a line is just after the last newline before a character, or 0 |
| `Positions.AtPosition` | src/lexer.rs:71-92 | after consuming `k >= 1` characters, `line` and `col` are the 1-based line and column of the last consumed character and `prev` is that character |
| `Positions.FreshPosition` | src/lexer.rs:71-79 | a fresh cursor is at line 1, column 0, nothing consumed |
| `TokenFacts.ScanOperator` | src/lexer.rs:124-151 | `!`, `=`, `<`, `>` consume a following `=` and give the two-character variant; otherwise they consume nothing more and give the one-character variant |
| `TokenFacts.ScanSlash` | src/lexer.rs:152-159 | after `//` the comment text is every character up to but excluding the next newline or the end, and the newline is left; a lone `/` is `Slash` |
| `TokenFacts.ScanWhitespace` | src/lexer.rs:110-113 | a whitespace character starts a maximal whitespace run that is one `Whitespace` token |
| `TokenFacts.ScanIdentifierToken` | src/lexer.rs:170-195 | an ASCII letter starts the longest run of letters, digits and `_`; the token is the keyword the whole lexeme spells, or else `Ident` of the lexeme |
| `TokenFacts.ScanNumberToken` | src/lexer.rs:198-214 | a digit starts the longest run of digits with at most one dot; a second dot is left unconsumed; the payload is the lexeme |
| `TokenFacts.ScanStringToken` | src/lexer.rs:222-239 | a terminated string's payload is the body verbatim, no quote in it is unescaped, and the closing quote is consumed; otherwise the result is `Unexpected` with the cursor's position and all input is consumed |
| `TokenFacts.ScanUnknown` | src/lexer.rs:161-163 | `Unknown` is given exactly for a character that begins no rule (`_` among them) and consumes only that character |
| `TokenFacts.ScanKind` | src/lexer.rs:107-168 | the first character decides the token kind: whitespace, string or `Unexpected`, number, comment |
| `TokenFacts.UnexpectedAtEnd` | src/lexer.rs:224-235 | `Unexpected` is only returned once the input is exhausted inside a string |
| `TokenFacts.UnexpectedPosition` | src/lexer.rs:230-234 | from a fresh cursor, `Unexpected` carries the line and column of the last input character |
| `LexFacts.LexFromStep` | src/lexer.rs:264-273 | each round of `tokenize` yields the scanned token unless it is `Eof`, consumes at least one character, and resumes from the state the scan leaves |
| `LexFacts.LexBound` | src/lexer.rs:264-273 | `tokenize` yields at most one token per remaining character and never yields `Eof` |
| `LexFacts.LexAtEnd` | src/lexer.rs:165-167 | with no input left nothing more is yielded |
| `LexFacts.UnexpectedIsLast` | src/lexer.rs:264-273 | `Unexpected` can only be the last token yielded |
| `LexFacts.WhitespaceThenOther` | src/lexer.rs:110-113 | the token scanned right after a whitespace run, if any input remains, is not whitespace |
| `LexFacts.WhitespaceCoalesces` | src/lexer.rs:110-113 | two `Whitespace` tokens are never adjacent in the output |
| `LexFacts.LexPunctuation` | src/lexer.rs:114-123 | input made only of punctuation yields exactly one fixed token per character, in order |
| `LexFacts.LexUnexpectedPosition` | src/lexer.rs:230-234 | every `Unexpected` yielded from a fresh cursor carries the position of the last input character |
| `LexFacts.TokenizeFacts` | src/lexer.rs:264-273 | for a whole input: bounded length, no `Eof`, `Unexpected` only last and at the last character's position |
| `Lexer.Cursor.constructor` | src/lexer.rs:71-79 | a new cursor is at line 1, column 0, with `prev` the end-of-input character |
| `Lexer.Cursor.Next` | src/lexer.rs:81-92 | the consume primitive: line advances and column resets after a newline, column advances, the next character is read or `None` at the end |
| `Lexer.Cursor.Peek` | src/lexer.rs:94-96 | returns the next character without changing any field |
| `Lexer.Cursor.NextMatches` | src/lexer.rs:98-106 | consumes the next character only when it is the expected one, and says whether it did |
| `Lexer.Cursor.TakeWhile` | src/lexer.rs:241-252 | collects and consumes the characters the predicate accepts until it refuses one or the input ends |
| `Lexer.Cursor.EatWhile` | src/lexer.rs:254-261 | consumes the same characters as `TakeWhile` without collecting them |
| `Lexer.Cursor.Identifier` | src/lexer.rs:170-196 | scans an identifier or keyword after its first letter |
| `Lexer.Cursor.Number` | src/lexer.rs:198-220 | scans a number after its first digit |
| `Lexer.Cursor.String` | src/lexer.rs:222-239 | scans a string body and its closing quote, or reports `Unexpected` |
| `Lexer.Cursor.AdvanceToken` | src/lexer.rs:107-168 | computes exactly one `advance_token` step, and keeps the cursor's position tracking across every token but `Eof` |
| `Lexer.Tokenize` | src/lexer.rs:264-273 | terminates and yields exactly the tokens before `Eof`, at most one per input character, never `Eof` |
| `Examples.NumberWithTwoDots` | src/lexer.rs:198-214 | `1.2.3` gives `Number("1.2")`, `Dot`, `Number("3")` |
| `Examples.NotAKeyword` | src/lexer.rs:177-195 | `printable` gives `Ident("printable")` |
| `Examples.AKeyword` | src/lexer.rs:177-195 | `print` gives `Print` |
| `Examples.BangEqualOperator` | src/lexer.rs:124-130 | `!=` gives `BangEqual` |
| `Examples.BangAlone` | src/lexer.rs:124-130 | `! ` gives `Bang`, `Whitespace` |
| `Examples.CommentThenNewline` | src/lexer.rs:152-155 | `// abc` newline `x` gives `Comment(" abc")`, `Whitespace`, `Ident("x")` |
| `Examples.PlainString` | src/lexer.rs:222-239 | a quoted `abc` gives `String("abc")` |
| `Examples.EscapedQuote` | src/lexer.rs:222-228 | an escaped quote stays in the payload with its backslash |
| `Examples.EscapedBackslashThenQuote` | src/lexer.rs:224-235 | `"a\\"` is unterminated and reported at line 1, column 5 |
| `Examples.UnterminatedOnSecondLine` | src/lexer.rs:81-92 | after a newline the reported line is 2 and the column restarts at 1 |

## Left out

- `Scanner.ScanNumber`, `Lexer.Cursor.Number`: the `f64` parse of the lexeme is not modelled. `Number` carries the lexeme instead: a digit, then digits with at most one dot. Rust's float parser accepts every such lexeme, so the `Unknown` fallback after a failed parse cannot happen and has no branch in the model.
- The laziness of `Peekable<Chars>` and `std::iter::from_fn`: the stream is a sequence with an index, and `Tokenize` collects the tokens eagerly. The sequence it returns is the one the lazy iterator yields.
- `line` and `col` are unbounded naturals. The source's `usize` could only overflow on inputs longer than the address space.
- The cursor's state after `Eof`: that last call of `next` still advances `col` (and `line` after a trailing newline). `AdvanceToken` states this state, but position tracking is only claimed for the other tokens, because `tokenize` stops at `Eof`.
- `src/main.rs` is not part of this model. It holds argument parsing, file reading, the interactive loop with its `q!` quit line, and printing of tokens.
- `#[derive(Debug)]` formatting of tokens.
