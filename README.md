# A verified model of the kobe lexer and its error rendering

kobe is the front end of a compiler from a small language to bytecode. Only two
parts of it do real work: a partial tokenizer and the rendering of compiler
errors as text. This project models both in Dafny and proves what they do.

**The tokenizer** (`lex.dfy`, properties in `lex_properties.dfy`) reads its
input one byte at a time and casts each byte to a character. It counts lines
and characters, and it dispatches on the first character that is not
whitespace:

- The one-character operators are `: , ( ) [ ] + * /`.
- The leads `= - < >` become `== -> <= >=` when a conditional consume finds the
  second character. Otherwise they become Assign, Minus, LessThan and
  GreaterThan.
- Digits, letters and every other byte reach `unimplemented!()`.

In the model, the input is a `seq<Byte>`, the reader is a read index `pos`, and
the counters are `lineNumber` and `charNumber`. The class `Lex.Lexer` holds this
state and changes it in place, as the source's `Lexer` does. Each method is
proved against a function on the state as a value (`Lex.ReadChar`,
`Lex.ReadCharIfEquals`, `Lex.Scan`). The lemmas are proved about those
functions.

The model keeps two consequences of the step back in `next_char_if_equals`:

- The counters are not stepped back. The byte read after a short operator is
  therefore counted twice: once when it is peeked and once when the next call
  reads it.
- At the end of input the read index is stepped back even though nothing was
  read. The read index then points at the operator's own lead byte, so `=` at
  the end of input yields Assign on every call.

A lexer that undid the tracking of a pushed-back character would not count it
again; this code counts it twice, and the model follows the code.
`LexProperties.PeekedByteTrackedTwice` and
`LexProperties.AssignAloneAgain` show the two effects on concrete inputs.

**The error rendering** (`error.dfy`) is made of pure functions. They model the
`Display` implementations of `Error`, `ErrorKind` and `LexicalErrorKind`. The
decimal printing of the counters is `NatToString`, and `" ".repeat(n)` is
`Spaces`.

`tokens.dfy` declares the token kinds that the lexer actually emits, each
with its spelling. `options.dfy` declares the `Option` type.

## Model

| member | source | states |
|---|---|---|
| Lex.Lexer.constructor | src/lex.rs:15-21 | a new lexer is in the state `Start()`: it reads from index 0, with the line counter at 1 and the character counter at 0 |
| Lex.Lexer.NextCharNoPositionUpdate | src/lex.rs:40-45 | returns the byte at the read index as a character and moves past it, or returns None at the end of input; the counters are untouched |
| Lex.Lexer.UpdatePositionTracking | src/lex.rs:47-53 | the character counter grows by one; on a newline, the line counter grows by one and the character counter becomes 0 |
| Lex.Lexer.NextChar | src/lex.rs:23-29 | the new state and the character read are exactly those of `ReadChar` |
| Lex.Lexer.NextCharIfEquals | src/lex.rs:31-38 | the result and the new state are exactly those of `ReadCharIfEquals`; it requires a non-empty input, the only case in which the step back cannot fail |
| Lex.Lexer.Next | src/lex.rs:59-112 | a loop skips whitespace and then dispatches; the outcome and the new state are exactly those of `Scan`, so every property proved of `Scan` holds of the method |
| Lex.ReadChar | src/lex.rs:23-29 | at the end of input: None, and the state is unchanged; otherwise: the byte at the read index, the read index one further, and the counters advanced (on a newline, next line at character 0) |
| Lex.ReadCharIfEquals | src/lex.rs:31-38 | true exactly when a next byte exists and equals the target, and then that byte is consumed; on false, the read index is back where it was, or one below it at the end of input; the counters keep the tracking of any byte that was read |
| Lex.ClassifyLead | src/lex.rs:62-103 | whitespace (per `is_whitespace` on bytes) is exactly the blank case; digits and ASCII letters have no case; a one-character kind is spelled by its lead; a pair lead spells the short kind, is followed by `next` in the long kind, and `next` is the short kind's continuation |
| Lex.Scan | src/lex.rs:59-112 | the read index never passes the end of input; what `Scan` produces is stated by the lemmas below |
| LexProperties.TrackAllCounts | src/lex.rs:47-53 | over any byte string, the line counter rises by the number of newlines; the character counter ends as the number of bytes after the last newline, or grows by the length when there is no newline |
| LexProperties.ScanSkipsBlanks | src/lex.rs:102 | each whitespace byte before a token is consumed and tracked, and produces no token; the call acts as if it started at the first byte that is not whitespace |
| LexProperties.ScanOutcome | src/lex.rs:59-112 | end of input exactly when only whitespace remains, with all of it consumed and tracked; a panic exactly when the first byte that is not whitespace has no case; otherwise a token whose lexeme is that lead character alone, whose kind is spelled starting with it, and whose line and character numbers are the counters after the call |
| LexProperties.ClassifySpelling | src/lex.rs:62-99 | the lead of every kind's spelling dispatches back to that kind: directly for a one-character kind, and as the short or long side of its pair for the others |
| LexProperties.ScanSingle | src/lex.rs:70-85 | from any read index (any token of the input, not only the first), after whitespace, a one-character operator yields its kind whatever follows; index and counters are those after the lead |
| LexProperties.ScanPairLong | src/lex.rs:63-98 | from any read index, after whitespace, a pair lead followed by its continuation yields the long kind (Equivalent, Arrow, LessThanOrEqual, GreaterThanOrEqual); both bytes are consumed and tracked, and the lexeme is the lead alone |
| LexProperties.ScanPairShort | src/lex.rs:63-98 | from any read index, after whitespace, a pair lead not followed by its continuation yields the short kind (Assign, Minus, LessThan, GreaterThan); the peeked byte stays tracked while the read index steps back onto it; at the end of input the read index steps back onto the lead |
| LexProperties.ScanOperator | src/lex.rs:62-111 | for every token kind and from any read index: its spelling after whitespace, followed by anything that does not extend it, yields that kind; the lexeme, the counters and the final read index are given exactly |
| LexProperties.ScanPanics | src/lex.rs:100-103 | from any read index, after whitespace, a lead byte with no case ends the call in the panic of `unimplemented!()`, never in a token, with the whitespace and the lead consumed and tracked |
| LexProperties.AssignAlone | src/lex.rs:136-139 | the input `=` yields Assign with lexeme `=`, line 1, character 1, and leaves the read index at 0 |
| LexProperties.AssignAloneAgain | src/lex.rs:32-36 | because the step back also happens at the end of input, a second call on `=` yields Assign again, at character 2 |
| LexProperties.PeekedByteTrackedTwice | src/lex.rs:32-36 | on `-` followed by a newline: Minus on line 2 at character 0, and the next call ends the input on line 3, so the one newline is counted twice |
| LexProperties.SimpleTokens | src/lex.rs:136-139 | through the class: a new lexer over `=` yields Assign, `=`, line 1, character 1 |
| Errors.NatToString | src/error.rs:15-19 | the decimal text of a counter is a non-empty string of digits without a leading zero; 0 is written `0` |
| Errors.NatToStringRoundTrip | src/error.rs:15-19 | reading the decimal text back gives the number |
| Errors.Spaces | src/error.rs:21 | `" ".repeat(n)` is n characters, all spaces |
| Errors.CaretLine | src/error.rs:21 | the caret line is a bar, then exactly `charNumber` spaces, then `^`, which sits at index `charNumber + 1` |
| Errors.LexicalMessagesDistinct | src/error.rs:49-59 | the five lexical messages are pairwise distinct |
| Errors.ErrorKindTextDistinct | src/error.rs:31-38 | two kinds render the same exactly when they are equal, and the renderings of two different kinds (`Lexical error: <message>.` or the fixed `Syntax error: ...`) even differ in length |
| Errors.ErrorKindTextOneLine | src/error.rs:31-59 | no kind renders with a line break |
| Errors.ErrorToStringLines | src/error.rs:12-23 | the rendering ends in a line break and splits into exactly four lines: the kind, `> name:line:char`, a bar and a space before the source line, and the caret line (given no line break in the name or the line text) |
| Errors.LocatorInjective | src/error.rs:15-19 | two locator lines `> name:line:char` are equal exactly when the source names, the line numbers and the character numbers are equal (given names without a colon) |
| Errors.ErrorToStringInjective | src/error.rs:3-23 | two errors render to the same text if and only if they are equal: equal errors render the same, and every field can be read back from the text (given no line break in the name or the line text, and no colon in the name) |

## Left out

- The reader is a byte sequence with a read index. The model leaves out `BufReader`, the `Read`/`Seek` traits and the `.unwrap()` of a failed read, because these are the I/O layer.
- Lex.Lexer.NextCharIfEquals: requires a non-empty input. The only failing step back is at index 0 at the end of input, which only an empty input can reach, and `next` calls this method only after a byte was read.
- The counters are unbounded naturals. `usize` overflow of `line_number` or `char_number` is not modelled, because it needs more than 2^64 counted reads. The step back at the end of input lets one byte be counted again on every call, so this is a count of calls to `next`, not of input bytes.
- The panic of `unimplemented!()` is the outcome `Panic`. The model states the state at that point, although the process aborts there.
- `Iterator::next` skips whitespace by calling itself again. The model uses a loop, and it leaves out the stack depth of that recursion.
- The model proves that a single call of `next` terminates. It does not prove that repeated calls terminate, and they need not: `=` at the end of input yields Assign forever.
- `next` never produces an `Err`, so the model has no error outcome for it.
- Scanning numbers, identifiers, keywords, character and string literals and statement terminators does not exist in the code. These leads end in `unimplemented!()`, and the model does not invent them.
- Unicode whitespace beyond the byte range is not needed: every character comes from a byte cast.
- src/main.rs is the command-line shell (argument parsing, file and stdin reading, output). It is not part of this model.
- src/parse.rs and src/codegen.rs only contain `unimplemented!()` placeholders, and src/ast.rs only declares data types. They are not part of this model.
- src/token.rs declares one keyword kind that the lexer does not use. `Tokens.TokenType` holds the kinds that the lexer emits instead.
- Rust's `fmt::Formatter` and its `fmt::Result` are left out. Rendering is a function to a string, because writing to a string never fails.
