# Lox scanner, modelled in Dafny

This project models the lexical front end of the Ruby Lox interpreter. It has three parts.

- **`LookaheadIterator`** (`lib/lox/lookahead_iterator.rb`) wraps a forward-only enumerator and adds bounded lookahead.
- **`Scanner`** (`lib/lox/scanner.rb`) turns source text into tokens. It tracks a 1-based line counter and reports "Unexpected character" and "Unterminated string" to a logger.
- **`Token`** (`lib/lox/token.rb`) is the immutable token record and its one-line rendering.

The files:

| file | module | what it holds |
|---|---|---|
| `strings.dfy` | `Strings` | the position of the first occurrence of a character |
| `tokens.dfy` | `Tokens` | token types, literals, the `Token` record and `to_s` |
| `lookahead_iterator.dfy` | `Lookahead` | the iterator as a class |
| `scanner_spec.dfy` | `ScannerSpec` | the tokenisation policy as functions (`SkipTrivia`, `TokenAt`, `NextToken`, `Scan`) |
| `scanner_properties.dfy` | `ScannerProperties` | lemmas about those functions |
| `scanning.dfy` | `Scanning` | the scanner as a class |

**The iterator.** The class has two fields. `buffer` holds items fetched for a peek but not yet consumed. `source` holds what the wrapped enumerator has not yet handed out. Their concatenation is the logical stream. Ruby's `StopIteration` becomes the result variant `Exhausted`.

**The scanner.** `Scanner` is a class with the Ruby object's state: the character iterator, the line counter and the log. Its methods stand for the Ruby methods, or for a branch or loop inside one, as follows.

| Dafny method | Ruby code it stands for |
|---|---|
| `EachToken` | `each_token` (`scanner.rb:38-46`) |
| `ReadToken` | `read_token` (`scanner.rb:52-79`) |
| `ReadRecognisedToken` | the `case` branches of `read_token` for operators, strings and numbers (`scanner.rb:55-73`) |
| `ReadOperatorToken` | the two operator branches of `read_token` (`scanner.rb:56-69`) |
| `SkipWhitespaceAndComments` | `skip_whitespace_and_comments` (`scanner.rb:81-93`) |
| `SkipComment` | its comment branch (`scanner.rb:86-88`) |
| `ReadStringToken` | `read_string_token` (`scanner.rb:95-109`) |
| `ReadStringContents` | its `until` loop (`scanner.rb:99-103`) |
| `ReadNumberToken` | `read_number_token` (`scanner.rb:111-123`) |
| `ReadDigits` | each of its `while` loops (`scanner.rb:114`, `117`) |
| `ReadFraction` | its dot-and-digits branch (`scanner.rb:115-118`) |
| `NextCharacter` | `next_character` (`scanner.rb:125-127`) |
| `ReadCharacter`, `ReadExpected` | `read_character` without and with an expected character (`scanner.rb:129-133`) |

Three Ruby helpers have no method of their own:
- `digit?` is the predicate `IsDigit`.
- `stop_at_eof` and `error_at_eof` become explicit branches on the `Exhausted` result.

Five methods that read a token, and the method that skips trivia, are proved to take exactly the step that a function of `ScannerSpec` describes:
- `ReadToken` follows `NextToken`.
- `ReadRecognisedToken`, `ReadOperatorToken` and `ReadNumberToken` follow `TokenAt`.
- `ReadStringToken` follows `ReadString`.
- `SkipWhitespaceAndComments` follows `SkipTrivia`.

`EachToken` is proved equal to `Scan`, so the properties proved about those functions hold of the scanner. The character-level methods state their effect on the character stream directly:
- `SkipComment`, `ReadStringContents`, `ReadDigits` and `ReadFraction`;
- `NextCharacter`, `ReadCharacter` and `ReadExpected`.

`TokenizeSource` ties a fresh scanner to `Tokenize`. Scanning the same text twice therefore gives identical tokens and diagnostics.

**The logger.** It is modelled as the field `log`, a sequence of `Entry(line, message)` values in the order they were sent. `MessageText` gives the text each message carries.

**A lone trailing `/`, and an unterminated string.** Ruby's `Kernel#loop` rescues `StopIteration`. A lone `/` at the very end of the input makes the comment check's second peek (`scanner.rb:86`) raise. That only ends the skipping loop. `read_token` then reads the `/` as a slash token. The model does the same, as `ScannerProperties.LoneSlash` states. Likewise an unterminated string's `StopIteration` is re-raised after logging (`scanner.rb:146-153`). It ends `each_token`'s loop, so only `eof` follows it.

## Model

| member | source | states |
|---|---|---|
| Lookahead.LookaheadIterator.constructor | lib/lox/lookahead_iterator.rb:3-6 | the buffer starts empty, so the logical stream is the whole source |
| Lookahead.LookaheadIterator.Stream | lib/lox/lookahead_iterator.rb:9-22 | defines the logical stream, the buffered items followed by what the enumerator has not yet yielded, over which `Next` and `Peek` are specified |
| Lookahead.LookaheadIterator.Next | lib/lox/lookahead_iterator.rb:8-14 | consumes the head of the stream, taken from the buffer when it holds any and from the source otherwise; on an empty stream it yields `Exhausted` and changes nothing |
| Lookahead.LookaheadIterator.Peek | lib/lox/lookahead_iterator.rb:16-24 | yields element `lookahead` of the stream, or `Exhausted` exactly when the stream is no longer than that; the stream is unchanged; a successful peek leaves `max(old buffer length, lookahead)` items buffered; a failed one leaves every item buffered |
| Lookahead.PeekThenNext | lib/lox/lookahead_iterator.rb:8-24 | `peek` at distance 0 returns exactly what the following `next` consumes |
| Lookahead.PeekThenDrain | lib/lox/lookahead_iterator.rb:8-24 | after any peek, repeated `next` returns the original stream in order and then stops |
| Tokens.TypeName | lib/lox/scanner.rb:9-30 | the name of each type as its Ruby symbol spells it, `_equal` variants included; every name is a non-empty word without a space |
| Tokens.LiteralText | lib/lox/token.rb:4 | defines what is shown for a literal: the word `null` when there is none, otherwise the literal's text; `RenderingWithoutLiteral` states the `null` case |
| Tokens.NumberText | lib/lox/scanner.rb:120 | defines the printed form of a number literal as a normalised decimal; `WholeNumberText` and `FractionNumberText` state what it prints |
| Tokens.ToString | lib/lox/token.rb:4 | defines `to_s` as the upper-cased type name, the lexeme and the literal text joined by single spaces; `FirstWordIsTypeName`, `RenderingWithoutLiteral` and `StarRendering` state its properties |
| Tokens.Upcase | lib/lox/token.rb:4 | `upcase` on a type name keeps its length and capitalises each letter in place |
| Tokens.StripLeadingZeros | lib/lox/token.rb:4 | drops exactly the leading zeros: what is dropped is all `0`, and the rest is a suffix that does not start with `0` |
| Tokens.StripTrailingZeros | lib/lox/token.rb:4 | drops exactly the trailing zeros: what is dropped is all `0`, and the rest is a prefix that does not end in `0` |
| Tokens.NoLiteralByDefault | lib/lox/token.rb:2 | a token built without a literal has none; its type, lexeme and line read back as given |
| Tokens.FirstWordIsTypeName | lib/lox/token.rb:4 | the first space-delimited word of `to_s` is always the upper-cased type name |
| Tokens.RenderingWithoutLiteral | lib/lox/token.rb:4 | a token without a literal renders as type, space, lexeme, space, then `null` |
| Tokens.StarRendering | lib/lox/token.rb:4 | a `*` token renders as `STAR * null` |
| Tokens.WholeNumberText | lib/lox/scanner.rb:120 | a whole-number lexeme without leading zeros prints as its digits followed by `.0`, which is Ruby's rendering below 10^16 |
| Tokens.FractionNumberText | lib/lox/scanner.rb:120 | a lexeme already in normal form (no leading zeros, no trailing fraction zeros) prints unchanged |
| ScannerSpec.MessageText | lib/lox/scanner.rb:76 | the text of each diagnostic: `Unexpected character` (line 76) and `Unterminated string` (line 98) |
| ScannerSpec.IsWhitespace | lib/lox/scanner.rb:7 | the `WHITESPACE` set: space, tab, carriage return and newline |
| ScannerSpec.IsSimpleOperator | lib/lox/scanner.rb:9-22 | the keys of `SIMPLE_OPERATORS` |
| ScannerSpec.IsCompoundOperator | lib/lox/scanner.rb:24-30 | the keys of `COMPOUND_OPERATORS`, tested by the branch at line 60 |
| ScannerSpec.StartsComment | lib/lox/scanner.rb:86 | both of the next two characters are `/`; when the input holds fewer than two characters there is no comment, which is why a lone trailing `/` is left for `read_token` |
| ScannerSpec.StartsToken | lib/lox/scanner.rb:55-73 | the characters that reach a `case` branch of `read_token` (operators, a quote, a digit) rather than the `else` branch at line 74 |
| ScannerSpec.SimpleOperatorType | lib/lox/scanner.rb:9-22 | the `SIMPLE_OPERATORS` table from character to type; `SimpleOperatorScan` states the token it yields |
| ScannerSpec.IsDigit | lib/lox/scanner.rb:135-137 | `digit?`: the characters `0` to `9` |
| ScannerSpec.FractionLength | lib/lox/scanner.rb:115-118 | the fraction is a dot and its digit run when a digit follows the dot, and nothing otherwise; it never runs past the input |
| ScannerSpec.Tokenize | lib/lox/scanner.rb:35 | scanning a whole source text starts on line 1; `TokenizeLinesArePositive` and `Scanning.TokenizeSource` state its properties |
| ScannerSpec.CompoundOperatorType | lib/lox/scanner.rb:24-30 | each of `! = < >` maps to a type that has an `_equal` variant |
| ScannerSpec.WithEqual | lib/lox/scanner.rb:66 | the `_equal` variant's name is the type's name followed by `_equal`, and it has no further variant |
| ScannerSpec.SkipTrivia | lib/lox/scanner.rb:81-93 | what is left is a suffix of the input that starts with neither whitespace nor `//`; `WhitespacePrefix` and `CommentSkipped` state that leading whitespace and a comment are skipped and nothing else, and `SkipTriviaCountsLines` gives the line |
| ScannerSpec.Logged | lib/lox/scanner.rb:74-77 | defines the step with `entries` logged ahead of its own diagnostics; `UnexpectedCharacterNext`, `UnexpectedCharacterScan` and `NextTokenLog` state its effect |
| ScannerSpec.ReadString | lib/lox/scanner.rb:95-109 | a closed string emits a `string` token on the line reached, with what follows the closing quote left unread and nothing logged |
| ScannerSpec.DigitRun | lib/lox/scanner.rb:114 | the digits read are a prefix made of digits only, and the character after them is not a digit |
| ScannerSpec.NumberLength | lib/lox/scanner.rb:111-119 | a number lexeme holds at least one character and no more than the input |
| ScannerSpec.TokenAt | lib/lox/scanner.rb:55-73 | a token read consumes at least one character, is never `eof` and carries the line reached; nothing is logged |
| ScannerSpec.NextToken | lib/lox/scanner.rb:52-79 | a token read consumes at least one character and is never `eof` |
| ScannerSpec.Scan | lib/lox/scanner.rb:38-46 | the tokens end with an `eof` token that has an empty lexeme and no literal |
| ScannerProperties.CommentHasNoNewline | lib/lox/scanner.rb:86-88 | a comment stops short of the next newline, so skipping it counts no line |
| ScannerProperties.SkipTriviaCountsLines | lib/lox/scanner.rb:81-93 | skipping trivia raises the line by exactly the number of newlines skipped |
| ScannerProperties.ReadStringCountsLines | lib/lox/scanner.rb:98-104 | a string raises the line by exactly its newlines, whether closed or not |
| ScannerProperties.OperatorCountsLines | lib/lox/scanner.rb:56-69 | an operator is always read, on the current line, and consumes no newline |
| ScannerProperties.NumberCountsLines | lib/lox/scanner.rb:111-123 | a number is always read, on the current line, and consumes no newline |
| ScannerProperties.TokenAtCountsLines | lib/lox/scanner.rb:55-73 | reading a recognised token raises the line by exactly the newlines consumed, and by all that remain when the input ends |
| ScannerProperties.NextTokenCountsLines | lib/lox/scanner.rb:52-79 | reading a token raises the line by exactly the newlines consumed, and by all that remain when the input ends |
| ScannerProperties.ScanLines | lib/lox/scanner.rb:38-46 | token lines never fall below the starting line and never decrease along the output; `eof` carries the starting line plus every newline of the input |
| ScannerProperties.TokenizeLinesArePositive | lib/lox/scanner.rb:35 | because the counter starts at 1, every token of a source text has a line of at least 1 |
| ScannerProperties.EofOnlyAtEnd | lib/lox/scanner.rb:38-46 | `eof` occurs exactly once, as the last token |
| ScannerProperties.NextTokenLog | lib/lox/scanner.rb:74-78 | reading a token logs only unexpected characters; when the input runs out, an unterminated string can only be the last entry |
| ScannerProperties.ScanLog | lib/lox/scanner.rb:146-153 | over a whole scan, every entry is an unexpected character except possibly one unterminated string, and that one is the last |
| ScannerProperties.SkipWhitespace | lib/lox/scanner.rb:83-85 | whitespace alone is skipped entirely, counting one line per newline |
| ScannerProperties.WhitespacePrefix | lib/lox/scanner.rb:83-85 | whitespace ahead of any text is skipped, one line per newline, and skipping continues from that text on the line reached |
| ScannerProperties.WhitespaceThenToken | lib/lox/scanner.rb:52-55 | the token read after leading whitespace is the one read from the text that follows, on the line its newlines reach |
| ScannerProperties.WhitespaceOnlyScan | lib/lox/scanner.rb:81-93 | input made only of whitespace scans to exactly one `eof` token, with no diagnostics |
| ScannerProperties.CommentSkipped | lib/lox/scanner.rb:86-88 | a comment is skipped up to, but not including, the newline that ends it |
| ScannerProperties.CommentOnlyScan | lib/lox/scanner.rb:86-88 | a comment with nothing after it scans to `eof` alone, with no diagnostics |
| ScannerProperties.SimpleOperatorScan | lib/lox/scanner.rb:56-59 | a one-character operator that does not open a comment is one token of its mapped type, with itself as lexeme |
| ScannerProperties.CompoundOperatorScan | lib/lox/scanner.rb:60-69 | `! = < >` followed by `=` give the `_equal` type with a two-character lexeme; otherwise, including at the end of the input, the one-character type |
| ScannerProperties.ReadClosedString | lib/lox/scanner.rb:95-109 | a closed string's lexeme runs from quote to quote; its literal is the contents between; its line is that of the closing quote |
| ScannerProperties.ReadUnclosedString | lib/lox/scanner.rb:98-104 | a string that reaches the end of the input stops scanning and logs one `Unterminated string` on the last line |
| ScannerProperties.TerminatedStringScan | lib/lox/scanner.rb:95-109 | at the head of the input, a closed string is read with no trivia before it; its literal is its lexeme without the first and last characters |
| ScannerProperties.UnterminatedStringNext | lib/lox/scanner.rb:146-153 | an unclosed string logs exactly one error, on the line where the input ends, and stops reading |
| ScannerProperties.UnterminatedStringScan | lib/lox/scanner.rb:146-153 | after an unclosed string the output is `eof` alone, with that one error logged |
| ScannerProperties.NumberLengthIsMaximal | lib/lox/scanner.rb:111-119 | the number lexeme is digits with at most one dot, never ends in a dot, and cannot be extended by a digit or by a dot-and-digit |
| ScannerProperties.NumberScan | lib/lox/scanner.rb:111-123 | a number token carries the number lexeme at the head of the input as both its lexeme and its literal, on the current line |
| ScannerProperties.WholeNumberLength | lib/lox/scanner.rb:114 | a maximal number without a dot is the whole digit run |
| ScannerProperties.FractionNumberLength | lib/lox/scanner.rb:115-118 | a maximal number with a dot is the digit run, the dot and the digit run after it |
| ScannerProperties.NumberLengthUnique | lib/lox/scanner.rb:111-119 | the number lexeme is the only maximal number at the head of the input |
| ScannerProperties.UnexpectedCharacterNext | lib/lox/scanner.rb:74-78 | any other character produces no token and logs one `Unexpected character` on the current line; reading continues with the next character |
| ScannerProperties.UnexpectedCharacterScan | lib/lox/scanner.rb:74-78 | over the whole scan, the character changes nothing but that one diagnostic ahead of the rest |
| ScannerProperties.ScanEmits | lib/lox/scanner.rb:41-43 | each token read is emitted with its diagnostics ahead of whatever the rest scans to |
| ScannerProperties.ScanStops | lib/lox/scanner.rb:41-45 | when reading stops, `eof` on the line reached is the only token that follows |
| ScannerProperties.EmptyScan | lib/lox/scanner.rb:38-46 | empty input scans to `eof` alone, on the starting line |
| ScannerProperties.LoneOperatorScan | lib/lox/scanner.rb:56-59 | a one-character operator on its own scans to its token followed by `eof` |
| ScannerProperties.LoneSlash | lib/lox/scanner.rb:86 | a trailing `/` is a slash token, not a comment and not an error |
| ScannerProperties.NumberBeforeOperator | lib/lox/scanner.rb:115 | digits followed by an operator character end before it; a dot that no digit follows is not part of the number |
| ScannerProperties.NumberThenOperator | lib/lox/scanner.rb:111-123 | digits then an operator scan to a number token, the operator's token and `eof`, with no diagnostics |
| Scanning.Scanner.constructor | lib/lox/scanner.rb:32-36 | the scanner reads the whole source from line 1 with an empty log |
| Scanning.Scanner.EachToken | lib/lox/scanner.rb:38-46 | returns exactly `Scan`'s tokens and appends exactly its diagnostics; the input is consumed and the line reaches the start plus every newline |
| Scanning.Scanner.ReadToken | lib/lox/scanner.rb:52-79 | the token, the remaining characters, the line and the new log entries are those of `NextToken` |
| Scanning.Scanner.ReadRecognisedToken | lib/lox/scanner.rb:55-73 | the token, the remaining characters, the line and the new log entries are those of `TokenAt` |
| Scanning.Scanner.ReadOperatorToken | lib/lox/scanner.rb:56-69 | reads the operator `TokenAt` describes, leaving line and log unchanged |
| Scanning.Scanner.SkipWhitespaceAndComments | lib/lox/scanner.rb:81-93 | the characters left and the line are those of `SkipTrivia`; nothing is logged |
| Scanning.Scanner.SkipComment | lib/lox/scanner.rb:86-88 | consumes `//` and everything up to the next newline, and reports whether the input ran out |
| Scanning.Scanner.ReadStringToken | lib/lox/scanner.rb:95-109 | the token, the remaining characters, the line and the new log entries are those of `ReadString` |
| Scanning.Scanner.ReadStringContents | lib/lox/scanner.rb:98-104 | reads everything up to the next quote or the end of the input, counting its newlines into the line |
| Scanning.Scanner.ReadNumberToken | lib/lox/scanner.rb:111-123 | reads the number `TokenAt` describes, leaving line and log unchanged |
| Scanning.Scanner.ReadFraction | lib/lox/scanner.rb:115-118 | appends a dot and its digits exactly when a digit follows the dot |
| Scanning.Scanner.ReadDigits | lib/lox/scanner.rb:114 | appends the maximal digit run at the head of the input and consumes exactly it |
| Scanning.Scanner.NextCharacter | lib/lox/scanner.rb:125-127 | returns the character at the given distance, or `Exhausted`, without consuming anything |
| Scanning.Scanner.ReadCharacter | lib/lox/scanner.rb:129-133 | consumes and returns the next character |
| Scanning.Scanner.ReadExpected | lib/lox/scanner.rb:129-133 | consumes the next character, which is the one expected |
| Scanning.TokenizeSource | lib/lox/scanner.rb:32-46 | a fresh scanner over a source text yields exactly `Tokenize`'s tokens and diagnostics |

## Left out

- `each_token` without a block returns a lazy enumerator (`enum_for`, `scanner.rb:39`). The model returns the whole token sequence at once.
- Ruby's `Enumerator` is modelled as the sequence it has not yet yielded. `StopIteration` as control flow (`stop_at_eof`, `error_at_eof` and `Kernel#loop`) is modelled by the `Exhausted` result and explicit branches.
- Scanning.Scanner.ReadExpected: the `raise` on a mismatched character (`scanner.rb:131`) is a precondition. Every caller has already peeked the character, so it never fires.
- Scanning.Scanner.ReadToken: the recursive retry after an unexpected character is kept. Ruby's stack limit, which a long run of such characters could reach, is not modelled.
- The logger's output and its `errored` flag: `lib/lox/logger.rb` is not part of this model. Diagnostics are kept as `Entry(line, message)` values in `log`.
- Tokens.NumberText: `Float(lexeme)` (`scanner.rb:120`) and the float's `to_s` are modelled as a decimal normalisation of the lexeme. It agrees with Ruby only for lexemes of at most 15 significant digits whose value is zero, or at least 10^-4 and below 10^16. Outside that range Ruby switches to exponent notation (`0.00001` prints as `1.0e-05`). Binary rounding and exponent notation are not modelled.
- Tokens.FractionNumberText: it states that `NumberText` leaves a normal-form lexeme unchanged. That matches Ruby's rendering only inside the range above.
- Tokens.WholeNumberText: `d.0` is Ruby's rendering only for values below 10^16; `Float("10000000000000000").to_s` is `1.0e+16`.
- Lookahead.LookaheadIterator.Peek: the distance is a natural number. Ruby's `peek(lookahead:)` also accepts a negative one, and then `buffer.slice` counts from the end of the buffer. No caller passes one: the scanner peeks at distances 0 and 1 only (`scanner.rb:86`, `115`, `126`).
- A number token's literal is kept as its lexeme (`Num`) rather than as a float.
- The command-line front end and the interpreter loop that prints tokens: `lib/lox/cli.rb` and `lib/lox/interpreter.rb` are not part of this model.
- Scanner behaviour is stated for any character, string body or digit run rather than for fixed texts. The input `(#)`, for instance, follows from `UnexpectedCharacterScan` and `SimpleOperatorScan`.
