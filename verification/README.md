# golox scanner, modelled in Dafny

This project models the lexical core of golox, a Go tokenizer for the Lox
scripting language: the scanner in `lexer/lexer.go` and the token model in
`token/token.go`. It also models, as a pure function, the token loop of the
`tokenize` command in `app/main.go`.

The scanner is an immutable `Lexer` value: the source text, the `start` and
`current` cursor, and the `uint32` line and column counters. `NextToken`
returns the token and the next state instead of mutating a pointer receiver.
It does three things in order:

- it skips whitespace;
- it consumes one character and dispatches on it: punctuation, the one- or
  two-character operators `= ! > <`, `/` and `//` line comments (which
  re-enter `NextToken`), and `"` string literals;
- it yields an `ERROR` token for any other character.

The token model has:

- the closed set of kinds with their constant values;
- the token record and its constructor;
- the reserved-word table and `LookUpIdent`;
- the display names of `TokenToStr`;
- the one-line rendering of `String`, where an empty literal reads `null`.

Modules, one per file:

- `Tokens` (`tokens.dfy`): the token model, and the `uint32` wrap-around of the counters.
- `Scanner` (`lexer.dfy`): the lexer state and every scanning function.
- `Counters` (`counters.dfy`): how skipping whitespace moves the line and column.
- `ScanSteps` (`scan_steps.dfy`): what each branch of the scanner computes, from the first character of a token.
- `TokenCases` (`token_cases.dfy`): the same facts, stated from any state across the whitespace skipped first.
- `Outcomes` (`outcomes.dfy`): the guarantees every call keeps (`ScanOutcome`), proved by induction through the comment recursion.
- `EndOfInput` (`end_of_input.dfy`): `EOF` on blank input, and that `EOF` repeats once reached.
- `Driver` (`driver.dfy`): the `tokenize` loop and its exit status.

The code's quirks are kept as written:

- A token's position is the counters after its last character.
- A newline skipped as whitespace sets the column to 1, and the advance that follows makes it 2.
- Newlines inside a string literal do not move the line counter.
- An unterminated string yields an `EOF` token.
- Digits and letters yield `ERROR`, because this version of the scanner has no number or identifier scanning.

This scanner differs from the usual Lox scanner, and the model follows this code:

- A Lox scanner reads number literals, identifiers and keywords. This one reads none of them, and `LookUpIdent` is never called by the scanner.
- A Lox scanner moves to the next line on every newline, including those inside strings and comments. This one does not move the line inside a string. A comment stops before its newline, which whitespace skipping then handles.
- A Lox scanner reports an unterminated string as an error. This one returns an `EOF` token and writes a message to standard error.
- A Lox token keeps "no literal" apart from the empty string. This one uses `""` for both, so the empty string literal renders its literal as `null`.

## Model

| member | source | states |
|---|---|---|
| Tokens.NewToken | token/token.go:23-30 | the constructor stores kind, lexeme, literal, line and column unchanged |
| Tokens.LookUpIdent | token/token.go:101-106 | the result is a reserved-word kind or `IDENTIFIER`, and it is `IDENTIFIER` exactly when the word is not a key of the table |
| Tokens.SpellingInTable | token/token.go:80-97 | every reserved-word kind's lower-case spelling is a key of the table, and that key maps back to that kind |
| Tokens.TableSpelling | token/token.go:80-97 | every key of the table is the lower-case spelling of the kind it maps to |
| Tokens.LookUpIdentKeyword | token/token.go:101-104 | the lookup returns a given reserved-word kind if and only if the word is exactly that kind's spelling |
| Tokens.LookUpIdentIdentifier | token/token.go:101-106 | the lookup returns `IDENTIFIER` if and only if the word is the spelling of no reserved word |
| Tokens.LookUpIdentExamples | token/token.go:101-106 | the match is exact and case-sensitive: `class` is `CLASS`; `Class`, `classroom` and the empty string are identifiers |
| Tokens.TokenToStr | token/token.go:108-159 | every display name is non-empty, and reserved words and `ERROR` fall back to the constant's own value |
| Tokens.DisplayNameRoundTrip | token/token.go:108-159 | every display name is free of spaces and is read back as its own kind by the independent inverse table `KindNamed` |
| Tokens.DisplayNamesDistinct | token/token.go:108-159 | two kinds have the same display name if and only if they are the same kind |
| Tokens.Render | token/token.go:171-181 | the first space-separated field of a rendered token names the token's kind |
| Tokens.RenderFields | token/token.go:171-181 | a rendered token whose lexeme has no space splits back into display name, lexeme, and literal (`null` when the literal is empty) |
| Tokens.RenderEmptyString | token/token.go:172-174 | the empty string literal `""` renders as `STRING "" null` |
| Tokens.IncIsWrap | lexer/lexer.go:37 | incrementing a `uint32` counter is the successor reduced modulo 2^32 |
| Tokens.Value | token/token.go:32-77 | none of its own; `TokenCases.PunctuationSpelling` and `TokenCases.OperatorSpelling` state that each punctuation and operator constant is its lexeme, and `Tokens.SpellingInTable` that each reserved word's constant, lower-cased, is its key in the table |
| Scanner.New | lexer/lexer.go:19-28 | a fresh lexer is valid, holds the source, and starts at offset 0, line 1, column 1 |
| Scanner.IsAtEnd | lexer/lexer.go:30-32 | none of its own; `Scanner.Advance` requires it to be false, and `ScanSteps.NextTokenAtEnd` states what `NextToken` returns when it is true |
| Scanner.Advance | lexer/lexer.go:34-39 | advancing returns the character under the cursor, moves the cursor and the column one place, and keeps the line, `start` and validity |
| Scanner.Peek | lexer/lexer.go:41-46 | none of its own; `Scanner.PeekThenAdvance` states that it shows exactly the character `Advance` consumes |
| Scanner.PeekThenAdvance | lexer/lexer.go:34-46 | `advance` consumes the character `peek` shows and changes nothing but the cursor and the column |
| Scanner.ResetCursor | lexer/lexer.go:48-51 | none of its own; `Counters.SkipWhitespacePosition` states its effect inside whitespace skipping: one more line, and column 2 after the newline is consumed |
| Scanner.ScanStringBody | lexer/lexer.go:64-66 | keeps the state valid over the same source with `start` fixed; `ScanSteps.ScanStringBodyStops` states where it stops and how the counters move |
| Scanner.ScanCommentBody | lexer/lexer.go:114-116 | keeps the state valid over the same source; `ScanSteps.ScanCommentBodyStops` states where it stops and how the counters move |
| Scanner.SkipWhitespace | lexer/lexer.go:54-62 | skipping whitespace keeps the state valid over the same source and never moves the cursor back |
| Scanner.TokenizeString | lexer/lexer.go:63-77 | scanning the rest of a string keeps the state valid over the same source and never moves the cursor back |
| Scanner.NextToken | lexer/lexer.go:79-150 | every call keeps the state valid over the same source and never moves the cursor back |
| Scanner.ScanToken | lexer/lexer.go:86-149 | keeps the state valid and never moves the cursor back; `Outcomes.ScanTokenOutcome` states what every branch returns |
| Scanner.ScanString | lexer/lexer.go:90-91 | keeps the state valid and never moves the cursor back; `ScanSteps.ScanStringClosed` and `ScanSteps.ScanStringOpen` state its results |
| Scanner.ScanSlash | lexer/lexer.go:110-119 | keeps the state valid and never moves the cursor back; `ScanSteps.ScanSlashAt` and `ScanSteps.ScanCommentSkips` state its results |
| Scanner.ScanOperator | lexer/lexer.go:122-146 | keeps the state valid and never moves the cursor back; `ScanSteps.ScanOperatorAt` states its result |
| Scanner.OneOrTwo | lexer/lexer.go:123-127 | keeps the state valid and never moves the cursor back; `ScanSteps.ScanOperatorAt` states its result for each operator |
| Scanner.ScanPunctuation | lexer/lexer.go:92-148 | keeps the state valid and never moves the cursor back; `ScanSteps.ScanPunctuationAt` states its result |
| Scanner.PunctuationKind | lexer/lexer.go:92-148 | a one-character token's kind is one the scanner can produce, never `EOF` or a string, and is `ERROR` exactly when the character is not punctuation |
| Counters.SkipWhitespacePosition | lexer/lexer.go:54-62 | skipping whitespace adds one line per newline skipped; the column becomes 2 plus the characters after the last newline, or moves by the count of characters when there is no newline |
| ScanSteps.SkipWhitespaceStops | lexer/lexer.go:54-62 | skipping whitespace consumes only whitespace and stops at the first other character or at the end |
| ScanSteps.NextTokenAtEnd | lexer/lexer.go:80-84 | at the end of the input the result is an empty `EOF` token at the current counters, with `start` moved to the cursor |
| ScanSteps.ScanCommentBodyStops | lexer/lexer.go:114-116 | a comment's body ends at the next newline or at the end, the column moving by one per character |
| ScanSteps.ScanStringBodyStops | lexer/lexer.go:64-66 | a string's body ends at the next quote or at the end; the column moves by one per character and the line stays put |
| ScanSteps.TokenizeStringClosed | lexer/lexer.go:73-76 | with a closing quote, the literal is the text between the quotes, the lexeme is that text quoted, and the cursor ends past the closing quote |
| ScanSteps.TokenizeStringOpen | lexer/lexer.go:68-71 | with no closing quote, the rest of the input is consumed and an empty `EOF` token is returned |
| ScanSteps.ScanOperatorAt | lexer/lexer.go:122-146 | an operator character followed by `=` is a two-character token; otherwise it is a one-character token and the next character is left unread |
| ScanSteps.ScanCommentSkips | lexer/lexer.go:110-117 | `//` yields what `NextToken` yields from the newline that ends the comment, or from the end of the input |
| TokenCases.PunctuationToken | lexer/lexer.go:92-121 | after any whitespace, each punctuation character is a token of its own kind, its lexeme that one character and the kind's constant, with one character consumed |
| TokenCases.UnexpectedCharacter | lexer/lexer.go:147-148 | any other character, digits and letters included, is an `ERROR` token holding just that character, with scanning resuming after it |
| TokenCases.SlashToken | lexer/lexer.go:110-119 | a `/` not followed by `/` is a division token with lexeme `/` and one character consumed |
| TokenCases.OperatorToken | lexer/lexer.go:122-146 | `=`, `!`, `>` and `<` followed by `=` yield `==`, `!=`, `>=`, `<=` with two characters consumed, else `=`, `!`, `>`, `<` with one; the lexeme is the kind's constant and the source slice |
| TokenCases.CommentSkipped | lexer/lexer.go:110-118 | a line comment yields no token: the result equals `NextToken` on the state at the comment's ending newline or at the end, the comment counted in the column |
| TokenCases.StringToken | lexer/lexer.go:63-77 | a quoted string is a string token whose literal is the text between the quotes and whose lexeme is the source slice with its quotes, ending past the closing quote with the line unchanged |
| TokenCases.UnterminatedString | lexer/lexer.go:63-71 | a quote with no closing quote consumes the rest of the input and yields an empty `EOF` token |
| Outcomes.NextTokenOutcome | lexer/lexer.go:79-150 | every call keeps `start <= current <= length`. An `EOF` token is empty and comes only at the end of the input. Any other token strictly advances the cursor, and its lexeme is the source text it consumed. Only string tokens carry a literal, the text between their quotes, with no quote in it. The position is the final counters |
| Outcomes.ScanTokenOutcome | lexer/lexer.go:86-149 | the same guarantees hold from the first character of a token, whichever branch it takes |
| Outcomes.StringOutcome | lexer/lexer.go:63-77 | a string literal, closed or not, keeps those guarantees, and its literal holds no quote |
| Outcomes.CommentOutcome | lexer/lexer.go:110-117 | a line comment keeps those guarantees through its re-entry into `NextToken` |
| EndOfInput.BlankTailGivesEof | lexer/lexer.go:80-84 | with only whitespace left, the result is an empty `EOF` at the counters after the whitespace, and a second call returns the same token and state |
| EndOfInput.BlankGivesEof | lexer/lexer.go:79-118 | with only whitespace and line comments left, the result is an empty `EOF` token and the whole input is consumed |
| EndOfInput.EofIsSticky | lexer/lexer.go:80-84 | once `EOF` is returned, the cursor is at the end, and every later call returns the same `EOF` token without moving it |
| Driver.Scan | app/main.go:37-48 | the tokens pulled until `EOF` end with the only `EOF` and are all of kinds the scanner can produce |
| Driver.Tokenize | app/main.go:37-48 | the loop prints, in order, exactly the scanned tokens that are not `ERROR`, and reports exactly the `ERROR` tokens |
| Driver.PrintedEndsWithEof | app/main.go:44-47 | the printed tokens end with the only `EOF`, and none is an error |
| Driver.SplitKeepsTokens | app/main.go:37-48 | the printed and the reported tokens together are, as a multiset, exactly the scanned tokens |
| Driver.ExitCode | app/main.go:49-52 | none of its own; `Driver.ExitCodeMeansErrors` states that it is 65 exactly when an `ERROR` was scanned, and 0 otherwise |
| Driver.ExitCodeMeansErrors | app/main.go:49-52 | the exit status is 65 exactly when some scanned token is an `ERROR`, and 0 otherwise |
| Driver.BlankSourceTokenize | app/main.go:37-52 | a source of only whitespace and comments prints one empty `EOF` token, reports nothing, and exits with 0 |

## Left out

- Command-line parsing, file reading, usage errors and exit status 1 in `app/main.go` are I/O. `Driver.Tokenize` returns the printed and the reported tokens instead of writing lines. Each printed line is `Tokens.Render` of its token.
- Driver.Tokenize: the text of the `[line N] Error: Unexpected character` message is not modelled. It is decimal formatting of the line number.
- The message written to standard error for an unterminated string is a side effect. Only the returned token is modelled.
- `formatFloat` and the `float64` branch of `String` are floating-point formatting. The scanner never produces a number literal.
- `Position.String` is integer formatting and is not used by the scanner.
- `String` overwrites the token's literal with `null`. The model renders as a pure function and leaves the token unchanged.
- The `filename` field of the lexer is stored but never read, so the model omits it.
- The source is modelled as a sequence of characters, one per byte; ASCII input is assumed. The Go code reads bytes and re-encodes a non-ASCII byte as a rune in `string(ch)`.
- The literal, a Go `interface{}`, is modelled as a string with `""` for "none", which is how the scanner uses it.
- `start` and `current` are unbounded naturals, since Go's `int` cannot overflow on an in-memory source. The `uint32` line and column counters wrap explicitly.
- Scanner.NextToken: its own contract states only validity and progress. What it returns is stated per input shape in `TokenCases` and in general by `Outcomes.NextTokenOutcome`.
- Scanner.SkipWhitespace: its own contract states only validity and progress. What it consumes and how the counters move are stated by `ScanSteps.SkipWhitespaceStops` and `Counters.SkipWhitespacePosition`.
- Scanner.TokenizeString: its own contract states only validity and progress. Its results are stated by `ScanSteps.TokenizeStringClosed` and `ScanSteps.TokenizeStringOpen`.
- Scanner.ScanToken, Scanner.ScanString, Scanner.ScanSlash, Scanner.ScanOperator, Scanner.OneOrTwo, Scanner.ScanPunctuation: each one's own contract states only validity and progress. Their results are stated from a token's first character by the `ScanSteps` lemmas, and in general by `Outcomes.ScanTokenOutcome`.
- Scanner.ScanStringBody: its own contract states only validity and progress. `ScanSteps.ScanStringBodyStops` states where it stops and how the counters move.
- Scanner.ScanCommentBody: its own contract states only validity and progress. `ScanSteps.ScanCommentBodyStops` states where it stops and how the counters move.
- Tokens.Render: states only that the kind can be read back. The full split into three fields, `Tokens.RenderFields`, needs a lexeme without spaces, because a string literal containing a space makes the rendered line ambiguous.
