# A verified model of the `Scanner` of interpreter-python

The repository is the start of an interpreter for a small language. Its
`Scanner` class (app/Scanner.py) turns source text into tokens. It has a
cursor `pos` over `file_contents`, three lexeme readers (`read_identifier`,
`read_number`, `read_string`), a lookup of the current character in the token
enum, and a driver loop (`get_token_type`) that prints one token per pass and
ends with an EOF token. This project models that class as it is written,
including its defects, and proves what it does.

Layout:

- `wrappers.dfy` (`Wrappers`): `Option`, for Python's `None`.
- `token.dfy` (`Tokens`): the `Token` record of app/Token.py:2-6 as a datatype
  with a `Kind`, a lexeme and a literal. Either of the last two may be `None`.
  `Kind` tells the enum members the source passes for identifiers, numbers and
  strings apart from the member *names* it passes for punctuators and EOF.
- `lexemes.dfy` (`Lexemes`): the character classes and each reader as a
  function of the text and a start position (`ReadIdent`, `ReadNum`,
  `ReadStr`). Each result is `NoMatch` (cursor unmoved), `Matched(lexeme, end)`
  or `RanOffEnd`. Each function's contract states the reader's meaning: the
  slice it returns, what the slice holds and where it stops.
- `scan.dfy` (`Scan`): one pass of the loop body (`Step`) and the whole loop
  (`Run`) as functions. Both reader calls are modelled, and the lemmas state
  what reaches the output.
- `scanner.dfy` (`Scanning`): the class itself. It has the fields `text`,
  `pos` and `output`, and one method per method of the source, with `while`
  loops as in the source. The body of the scan loop is the method
  `NextToken`, so that the loop and its body are proved separately. Each
  method is proved equal to the functions above.
  Printed tokens are appended to `output`.
- `scan_examples.dfy` (`ScanExamples`): the outcome on small concrete inputs.

What the code does, as proved here:

- Every reader that matches is called a second time on the cursor the first
  call moved (app/Scanner.py:23-24, 26-27, 29-30), and the token is built from
  the second result.
- For identifiers and numbers, the second call returns `None`. So an
  IDENTIFIER token has no lexeme, and a NUMBER token has neither lexeme nor
  literal (`IdentifierStep`, `NumberStep`, `EveryTokenAsEmitted`).
- `read_string` stops on the closing quote without consuming it. The second
  call then treats that quote as a new opening quote. The STRING token
  therefore holds the text between the first string's closing quote and the
  next quote (`StringStep`). A lone, properly closed string fails
  (`ClosedStringExample`).
- Two exceptions end a scan. `().print()` at app/Scanner.py:38 is raised when
  nothing matches. `string += None` at app/Scanner.py:100 is raised when the
  input ends inside a string. Both are the `Failure` values `NoTokenMatched`
  and `UnterminatedString`. Tokens printed before the failure stay in
  `output`, and no EOF token follows (`FailedScanHasNoEof`).
- After whitespace at the very end, the current character is `None`. Provided
  no member of the token enum has the value `None`, nothing matches it, so
  any input ending in whitespace, such as a final newline, fails
  (`TrailingWhitespaceFails`, `TrailingNewlineExample`).
- A `.` after the digits stays in the number even when no digit follows it,
  so `1234.` is one NUMBER token (`DotWithoutFractionKept`,
  `TrailingDotExample`).

## Model

| member | source | states |
|---|---|---|
| `Scanning.Scanner.constructor` | app/Scanner.py:5-7 | starts with the cursor at 0 over the given text, with nothing printed |
| `Scanning.Scanner.CurrentChar` | app/Scanner.py:105-109 | `None` exactly when `pos >= len(file_contents)`, otherwise the character at `pos`; reads the state and changes nothing |
| `Scanning.Scanner.Advance` | app/Scanner.py:111-113 | `pos` grows by exactly one and nothing else changes |
| `Scanning.Scanner.SkipWhitespace` | app/Scanner.py:115-119 | the cursor does not move back, every character passed over is whitespace, and it stops at the end or on a non-whitespace character |
| `Scanning.Scanner.ReadIdentifier` | app/Scanner.py:43-59 | returns and moves exactly as `ReadIdent` from the old cursor says: `None` with the cursor unmoved, or the identifier with the cursor just past it |
| `Scanning.Scanner.ReadNumber` | app/Scanner.py:60-86 | returns and moves exactly as `ReadNum` from the old cursor says |
| `Scanning.Scanner.ReadString` | app/Scanner.py:88-103 | returns and moves exactly as `ReadStr` from the old cursor says; reports the exception exactly when no quote follows the opening one, with the cursor then at the end |
| `Scanning.Scanner.NextToken` | app/Scanner.py:18-38 | one pass of the loop body builds exactly the token `Step` gives and leaves the cursor where `Step` says, or raises exactly the failure `Step` gives |
| `Scanning.Scanner.GetTokenType` | app/Scanner.py:16-41 | appends exactly the tokens of `Run` from the old cursor to the output and returns its failure: the loop runs while a character remains, then EOF is printed; a scan that finishes leaves the cursor at the end of the text |
| `Scanning.Scanner.Tokenize` | app/Scanner.py:12-14 | the same as `GetTokenType`: the tokens of `Run` appended, its failure returned, and the cursor at the end of the text when the scan finishes |
| `Lexemes.SkipSpaces` | app/Scanner.py:115-119 | the first position at or after the start that is not whitespace, or the end |
| `Lexemes.IdentEnd` | app/Scanner.py:54-57 | the end of the longest run of letters, digits and underscores from the start |
| `Lexemes.NumberEnd` | app/Scanner.py:71-84 | where the loop of `read_number` stops; its own contract gives only that the stop lies between the start and the end of the text, and `NumberEndStops` states what the run holds and why it stops |
| `Lexemes.NumberEndStops` | app/Scanner.py:71-84 | the run holds only digits and `.`, holds no second `.`, and stops at the end, at a character that is neither digit nor `.`, or at a second `.` |
| `Lexemes.QuoteFrom` | app/Scanner.py:98-101 | the position of the first `"` at or after the start, or none when no `"` follows |
| `Lexemes.ReadIdent` | app/Scanner.py:43-59 | declines exactly when there is no character or it is neither a letter nor `_`; otherwise returns the non-empty slice from the start to the end, made of letters, digits and `_`, and maximal |
| `Lexemes.ReadNum` | app/Scanner.py:60-86 | declines exactly when there is no character or it is not a digit; otherwise returns the slice from the start to the end: digits and at most one `.`, stopping at the end, at a non-digit non-dot, or at a second `.` |
| `Lexemes.ReadStr` | app/Scanner.py:88-103 | declines exactly when the character is not `"`; runs off the end exactly when no later `"` exists; otherwise returns the characters between the opening quote and the next quote, with the cursor left on that closing quote |
| `Lexemes.IdentifierRereadDeclines` | app/Scanner.py:23-24 | a second `read_identifier` right after a match returns `None` |
| `Lexemes.NumberRereadDeclines` | app/Scanner.py:26-27 | a second `read_number` right after a match returns `None` |
| `Lexemes.StringRereadReopens` | app/Scanner.py:29-30 | a second `read_string` right after a match never declines: it reads from the left-over closing quote to the next quote, or runs off the end when there is none |
| `Lexemes.DotWithoutFractionKept` | app/Scanner.py:78-81 | a `.` after the digits is consumed even when no digit follows it |
| `Scan.Step` | app/Scanner.py:18-38 | a pass that emits moves the cursor forward and never past the end; it never emits the EOF token; every token it emits has its kind's shape; it cannot end exactly at the end of input that ends in whitespace |
| `Scan.Run` | app/Scanner.py:16-41 | a scan emits at most one token per remaining character, plus EOF |
| `Scan.FinishedScanEndsWithEof` | app/Scanner.py:16-41 | a scan that finishes without failure ends with the EOF token and has it nowhere else |
| `Scan.FailedScanHasNoEof` | app/Scanner.py:16-41 | a scan that fails has no EOF token: the exception ends it before line 40 |
| `Scan.EveryTokenAsEmitted` | app/Scanner.py:23-37 | in every scan, identifiers have no lexeme and the literal "null", numbers have neither lexeme nor literal, strings have lexeme equal to literal, and named tokens are EOF or one-character punctuators with literal "null" |
| `Scan.TrailingWhitespaceFails` | app/Scanner.py:17-38 | a scan of input whose last character is whitespace always fails |
| `Scan.IdentifierStep` | app/Scanner.py:19-25 | after whitespace, a letter or `_` gives an IDENTIFIER token with no lexeme and literal "null", and the cursor moves past the whole identifier |
| `Scan.NumberStep` | app/Scanner.py:19-28 | after whitespace, a digit gives a NUMBER token with no lexeme and no literal, and the cursor moves past the whole number |
| `Scan.StringStep` | app/Scanner.py:19-31 | after whitespace, a `"` fails if no quote follows it or the one after that; otherwise it gives a STRING token holding the text between the first closing quote and the next quote, with the cursor on that quote |
| `Scan.PunctuatorStep` | app/Scanner.py:32-37 | any other character in the punctuator table gives a token named after its enum member, with the character as lexeme and literal "null", and consumes that one character |
| `Scan.UnmatchedStep` | app/Scanner.py:32-38 | end of input after whitespace, or a character that no reader and no table entry accepts, fails at that position |
| `ScanExamples.EmptyInputExample` | app/Scanner.py:17-41 | empty input gives only the EOF token |
| `ScanExamples.ParenthesesExample` | app/Scanner.py:32-41 | `(()` gives three punctuator tokens and EOF; nothing checks that they balance |
| `ScanExamples.FractionExample` | app/Scanner.py:26-28 | `1234.1234` gives one NUMBER token without lexeme or literal, then EOF |
| `ScanExamples.TrailingDotExample` | app/Scanner.py:78-81 | `1234.` gives one NUMBER token and EOF; the dot is part of the number |
| `ScanExamples.KeywordExample` | app/Scanner.py:23-25 | `and` is an IDENTIFIER; there are no keywords |
| `ScanExamples.UnterminatedStringExample` | app/Scanner.py:98-100 | `"abc` fails as an unterminated string opened at 0 |
| `ScanExamples.ClosedStringExample` | app/Scanner.py:29-30 | `"abc"` fails as an unterminated string opened at its closing quote |
| `ScanExamples.TwoStringsExample` | app/Scanner.py:29-31 | `"a" "b"` gives one STRING token holding the space between the strings, then fails at the last quote |
| `ScanExamples.UnknownCharacterExample` | app/Scanner.py:33-38 | a character outside the table fails the scan at that character, with nothing emitted |
| `ScanExamples.TrailingNewlineExample` | app/Scanner.py:17-38 | `x` followed by a newline emits the identifier and then fails at the end of input |

## Left out

- Reading the file in the constructor (app/Scanner.py:8-9) is I/O. The constructor takes the text instead.
- Printing is console I/O. This covers `Token.print` in app/Token.py and the calls at app/Scanner.py:38 and 41. The printed tokens are the `output` sequence instead, so the text form of a printed line is not modelled (with `Enum`'s default string form an enum member would print as `Token_type.IDENTIFIER`; a name prints as `EOF`).
- app/main.py is command-line glue: argument checks, usage messages and `exit(1)`.
- The members of the token enum come from app/EToken.py, which is not part of this model. The lookup is a map from character to member name, supplied with the text. The source's linear search over the enum gives the same result as this lookup, because enum values are unique and only a one-character value can equal a character. A member whose value is `None` would match the `None` character after trailing whitespace; the map has no such key, so the model does not cover that case.
- Python's Unicode-aware `isalpha`, `isdigit`, `isalnum` and `isspace` are reduced to their ASCII part. For `isspace` that is space, tab, line feed, vertical tab, form feed, carriage return and the characters 28 to 31.
- Exceptions are `Failure` values, not Python exceptions. What happens after one (a traceback, the process status) is not modelled.
- `Scanning.Scanner.NextToken`: on a failure, where the cursor stands is not stated. The source has raised at that point, and the scanner is not used again.
- `Scanning.Scanner.GetTokenType`: on a failure, where the cursor stands is not stated, for the same reason. On a scan that finishes it is stated (the end of the text).
- `Scanning.Scanner.Tokenize`: on a failure, where the cursor stands is not stated, for the same reason. On a scan that finishes it is stated (the end of the text).
- Keywords, two-character operators, `//` comments, line counting and diagnostics that let scanning go on are not modelled. app/Scanner.py has none of them.
