# TINY scanner, modelled in Dafny

This project models the lexical scanner of the TINY teaching compiler
(`TINY_Compiler/Scanner.cs`). The scanner turns a source string into two lists:
- the tokens, each a lexeme with its `Token_Class`;
- the lexical diagnostics.

It works from three parts:
- an ordered table of 35 rules (a regular expression and a class), registered by the constructor;
- a longest-match selection over that table, where a tie goes to the first-registered rule;
- a main loop in `StartScanning`. At each cursor the loop skips a `/* ... */` comment, or emits the selected token (whitespace is dropped), or reports the character at the cursor and moves on by one.

The model has two layers.

- **Specification.** These are functions of the source string:
  - `MatchAt` is one anchored recognizer per regular expression.
  - `BestOf` and `BestMatch` are the fold over the table.
  - `CommentEnd` is the inner comment loop.
  - `StepAt` is one pass of the main loop.
  - `ScanFrom` and `Scan` give the whole scan.
  - `Classify` is a dispatch on the first character. It is proved to agree with the table's longest-match selection at every position of every string.
- **Implementation.** The `Scanner` class keeps the source's `tokens` list and its `tokenDefinitions` table. Its constructor stores the rule table. Its `StartScanning` method is imperative: the main loop, the comment loop and the loop over the rules each carry loop invariants. `StartScanning` is proved to leave exactly `Scan(sourceCode)` in the token list and in the diagnostic list.

Diagnostics are kept structured as `LexError` values:
- `UnterminatedComment(k)` stands for the message "Lexical Error: Unterminated multi-line comment starting at index k" (line 114).
- `Unrecognized(k, c)` stands for "Lexical Error: Unrecognized token at index k: 'c'" (line 152).

For an unterminated comment opened at `p`, the inner loop at lines 101-110 leaves the cursor at `max(p + 2, len - 1)`. When at least one character follows the opening marker, the last character of the input is therefore scanned again: `x /* hi` yields the identifiers `x` and `i` and one diagnostic. When nothing follows the marker, as in `x /*`, the loop stops at the end of the input and nothing is scanned again. `ScanReportsUnclosedComment` states this behaviour; `UnclosedCommentRescansLastCharacter` and `UnclosedMarkerAtEnd` work through the two cases.

Files:
- `tokens.dfy`: token classes, tokens, diagnostics.
- `recognizers.dfy`: the patterns and `MatchAt`.
- `rules.dfy`: the rule table and the longest-match fold.
- `classify.dfy`: the first-character dispatch and its agreement with the fold.
- `scan.dfy`: the comment skip, one step, the whole scan and its well-formedness.
- `properties.dfy`: what the comment, error and token paths do, and what every emitted token is.
- `scanner.dfy`: the `Scanner` class.
- `examples.dfy`: whole scans of small inputs.

## Model

| member | source | states |
|---|---|---|
| Recognizers.Run | TINY_Compiler/Scanner.cs:43-84 | the repeated character classes `[ \t\n\r]`, `[0-9]`, `[a-zA-Z0-9]`, `[^"]` are matched greedily: every character of the run is in the class, and the run ends at the end of the string or at a character outside it |
| Recognizers.Fraction | TINY_Compiler/Scanner.cs:83 | the optional part `(\.[0-9]+)?` of the number pattern is present exactly when a point is followed by a digit, and it stays inside the string |
| Recognizers.BoundaryFacts | TINY_Compiler/Scanner.cs:52-65 | for `\b` (`WordAt`, `Boundary`), positions outside the string are not word characters, so `\b` holds at either end of the input exactly when the adjacent character is a word character; letters and digits are word characters, blanks and quotes are not |
| Recognizers.MatchAt | TINY_Compiler/Scanner.cs:127-130 | a match that starts at the cursor is never empty, lies inside the source, and begins with a character the pattern can start with |
| Rules.RuleTable | TINY_Compiler/Scanner.cs:43-84 | the table has 35 rules in registration order, and no pattern in it can match the empty string |
| Rules.TableClasses | TINY_Compiler/Scanner.cs:43-84 | no rule of the table yields the COMMENT or ERROR class |
| Rules.BestOf | TINY_Compiler/Scanner.cs:121-139 | what the `foreach` keeps is always a real match of the rule it names, with that rule's class |
| Rules.SelectsTaken | TINY_Compiler/Scanner.cs:133-137 | a rule whose match is strictly longer than the best so far becomes the new best |
| Rules.SelectsKept | TINY_Compiler/Scanner.cs:133 | a rule that does not match, or whose match is no longer than the best so far, leaves the best unchanged |
| Rules.BestOfIsBest | TINY_Compiler/Scanner.cs:121-139 | the fold finds nothing exactly when no rule matches; otherwise it finds the longest match, and among equally long matches the first registered |
| Rules.BestUnique | TINY_Compiler/Scanner.cs:133 | the earliest longest match is unique |
| Rules.BestOfIs | TINY_Compiler/Scanner.cs:121-139 | any hit that is the earliest longest match is exactly what the fold returns |
| Classification.WholeWordAtLetter | TINY_Compiler/Scanner.cs:52-65 | at a letter, `\bword\b` matches exactly when the identifier-shaped word there is that word and no word character touches either end; the match length is the word's length |
| Classification.LetterSelection | TINY_Compiler/Scanner.cs:52-84 | at a letter the selection is the reserved word standing alone, or else the identifier, covering the whole run of letters and digits |
| Classification.BlankCase | TINY_Compiler/Scanner.cs:43 | at a blank the selection is the whole run of blanks, as WHITESPACE |
| Classification.DigitCase | TINY_Compiler/Scanner.cs:83 | at a digit the selection is the digits, plus a fraction when a point and a digit follow, as T_NUMBER |
| Classification.QuoteCase | TINY_Compiler/Scanner.cs:82 | at a quote the selection is the quoted string up to the next quote, and there is none when no closing quote follows |
| Classification.PairCase | TINY_Compiler/Scanner.cs:46-49 | at `:`, `&` or `|` the selection is the two-character operator, and there is none when the second character is missing |
| Classification.LessSelection | TINY_Compiler/Scanner.cs:47-71 | at `<` the two-character `<>` beats the one-character `<` |
| Classification.SingleCase | TINY_Compiler/Scanner.cs:67-79 | the one-character operators other than `<` are selected with length 1 |
| Classification.BestMatch | TINY_Compiler/Scanner.cs:121-139 | the selection the scanner makes with its own table, when there is one, is a non-empty match inside the source and never of class COMMENT or ERROR |
| Classification.OtherCase | TINY_Compiler/Scanner.cs:121-139 | any other character begins no rule, so nothing is selected |
| Classification.BestMatchIsClassify | TINY_Compiler/Scanner.cs:121-139 | at every position of every string, the longest-match, first-registered selection over the table equals the first-character dispatch |
| Scanning.CommentEnd | TINY_Compiler/Scanner.cs:101-110 | the comment loop stops just past the first closing marker and reports it terminated; when there is no closing marker it stops at `max(i, len-1)` and reports it unterminated |
| Scanning.MatchStep | TINY_Compiler/Scanner.cs:141-154 | the token path and the error path each move the cursor forward and stay inside the source |
| Scanning.StepAt | TINY_Compiler/Scanner.cs:93-154 | every pass of the main loop strictly increases the cursor and keeps it within the source, so the scan terminates |
| Scanning.StepFacts | TINY_Compiler/Scanner.cs:96-154 | a comment pass advances by at least 2 and adds no token; a token is the slice it consumes and is of an emittable class; a diagnostic names the cursor and describes what is there; an unrecognized character advances by exactly 1 |
| ScanProperties.StepRecognized | TINY_Compiler/Scanner.cs:141-148 | away from a comment opening, when the first-character dispatch recognises class `t` over `[p, q)`, the pass resumes at `q` and adds the token `s[p..q]`, unless it is whitespace |
| ScanProperties.StepUnrecognized | TINY_Compiler/Scanner.cs:149-154 | away from a comment opening, when the first-character dispatch recognises nothing, the pass reports the offset and the character and moves on by one |
| Scanning.TokenStepSelected | TINY_Compiler/Scanner.cs:141-147 | a pass that emits a token did not start at a comment, and the token is the selected slice with the selected class |
| Scanning.ScanFrom | TINY_Compiler/Scanner.cs:93-155 | the main `while` run from cursor `p` to the end: one offset per token, and at most one token or diagnostic added per character consumed (that each offset is where its token was matched is `ScanProperties.TokenEmitted`) |
| Scanning.Scan | TINY_Compiler/Scanner.cs:87-155 | the whole scan of a source: at most one token or diagnostic per source character |
| Scanning.ErrorReported | TINY_Compiler/Scanner.cs:112-153 | every diagnostic of a scan lies in the scanned range and is exactly the one that the pass at its own offset reports |
| Scanning.ScanFromWellFormed | TINY_Compiler/Scanner.cs:141-153 | every scan's tokens are non-empty slices of the source at their offsets, in increasing non-overlapping order, and never WHITESPACE, COMMENT or ERROR; its diagnostics have strictly increasing offsets and describe what is at them |
| ScanProperties.ScanEmpty | TINY_Compiler/Scanner.cs:89-93 | an empty source yields no token and no diagnostic |
| ScanProperties.ScanSkipsClosedComment | TINY_Compiler/Scanner.cs:96-116 | a comment closed first at `q` adds nothing: the scan from the opening marker is the scan from `q + 2` |
| ScanProperties.ScanReportsUnclosedComment | TINY_Compiler/Scanner.cs:99-116 | a comment with no closing marker adds exactly one diagnostic naming its start, and scanning resumes at `max(p + 2, len - 1)`: when at least one character follows the opening marker, the last character of the input is scanned again |
| ScanProperties.CommentNotTokenized | TINY_Compiler/Scanner.cs:96-117 | no token of the scan from a comment opening starts before the end of the opening marker, so `/*` is never read as `/` and `*` |
| ScanProperties.ScanReportsUnrecognized | TINY_Compiler/Scanner.cs:149-153 | where nothing is recognised, the scan adds exactly one diagnostic with the offset and the character, and continues one character later |
| ScanProperties.ScanDropsWhitespace | TINY_Compiler/Scanner.cs:141-147 | recognised whitespace adds nothing, and the scan resumes after it |
| ScanProperties.ScanEmitsRecognized | TINY_Compiler/Scanner.cs:141-147 | any other recognised unit is emitted as the exact slice, and the scan resumes after it |
| ScanProperties.TokenEmitted | TINY_Compiler/Scanner.cs:141-147 | every token of a scan is what the pass at its own offset emits |
| ScanProperties.EmittedIsClassified | TINY_Compiler/Scanner.cs:121-147 | an emitted token is not at a comment opening, is the slice at its offset, and is what the first-character dispatch recognises there |
| ScanProperties.EveryTokenClassified | TINY_Compiler/Scanner.cs:121-147 | every token of the whole scan is what the first-character dispatch recognises at its offset |
| ScanProperties.NonLetterClass | TINY_Compiler/Scanner.cs:52-84 | away from a letter, nothing is recognised as a reserved word or an identifier |
| ScanProperties.EmittedAtLetter | TINY_Compiler/Scanner.cs:52-84 | a token emitted at a letter is the whole identifier-shaped word there, classed as a reserved word or an identifier |
| ScanProperties.EmittedElsewhere | TINY_Compiler/Scanner.cs:52-84 | a token emitted away from a letter is neither a reserved word nor an identifier |
| ScanProperties.LetterClassReserved | TINY_Compiler/Scanner.cs:52-65 | a reserved word classed at a letter is that word with no word character on either side |
| ScanProperties.LetterClassIdentifier | TINY_Compiler/Scanner.cs:84 | a word classed as an identifier is not a reserved word standing alone |
| ScanProperties.EmittedWord | TINY_Compiler/Scanner.cs:52-84 | every emitted token is whole: a reserved word stands alone, and an identifier is never a bare reserved word and is never followed by a letter or digit |
| ScanProperties.WholeWordsOnly | TINY_Compiler/Scanner.cs:52-84 | every token of the whole scan is whole in that sense |
| ScanProperties.UnrecognizedJustified | TINY_Compiler/Scanner.cs:149-153 | a pass reports a character only where no comment opens and nothing is recognised, and the diagnostic holds that character |
| ScanProperties.UnclosedJustified | TINY_Compiler/Scanner.cs:96-116 | a pass reports an unterminated comment only where a comment opens and no closing marker follows it anywhere in the rest of the input |
| ScanProperties.ErrorJustified | TINY_Compiler/Scanner.cs:93-155 | every diagnostic of the scan from any cursor is justified in that sense, which is the converse of `ScanReportsUnrecognized` and `ScanReportsUnclosedComment` |
| ScanProperties.EveryErrorJustified | TINY_Compiler/Scanner.cs:87-157 | every diagnostic of the whole scan is justified by the text at its offset |
| ScannerObject.Scanner.constructor | TINY_Compiler/Scanner.cs:39-85 | a new scanner has an empty token list and the 35-rule table in registration order |
| ScannerObject.Scanner.SkipComment | TINY_Compiler/Scanner.cs:98-110 | the inner `while` leaves the cursor, and the flag saying whether it saw the closing marker, exactly as `CommentEnd` describes |
| ScannerObject.SelectLongest | TINY_Compiler/Scanner.cs:121-139 | the `foreach` over any valid rule list returns the length and class of the fold's choice, and ERROR when nothing matches |
| ScannerObject.Scanner.LongestMatch | TINY_Compiler/Scanner.cs:121-139 | over the scanner's own table, the loop returns the table's longest-match, first-registered selection at the cursor |
| ScannerObject.Scanner.ScanComment | TINY_Compiler/Scanner.cs:96-117 | the comment path moves the cursor and appends to the diagnostics exactly what `StepAt` says, and leaves the token list alone |
| ScannerObject.Scanner.AddSelected | TINY_Compiler/Scanner.cs:141-148 | the selected token is appended unless it is whitespace, and the cursor moves past it |
| ScannerObject.Scanner.ReportUnmatched | TINY_Compiler/Scanner.cs:149-154 | the unrecognized character is appended to the diagnostics, and the cursor moves by one |
| ScannerObject.Scanner.ScanToken | TINY_Compiler/Scanner.cs:121-154 | the token path appends to each list exactly what `StepAt` adds, and returns its new cursor |
| ScannerObject.Scanner.ScanOnce | TINY_Compiler/Scanner.cs:96-154 | one pass of the main loop appends to each list exactly what `StepAt` adds, and returns its new cursor |
| ScannerObject.PendingStep | TINY_Compiler/Scanner.cs:93-155 | after one pass, what is already in the lists followed by the scan from the new cursor is still the whole scan |
| ScannerObject.Scanner.StartScanning | TINY_Compiler/Scanner.cs:87-157 | the lists are cleared and refilled, so that afterwards the token list is exactly `Scan(sourceCode).tokens` and the diagnostic list exactly `Scan(sourceCode).errors`, whatever they held before |
| Examples.ElseifIsReserved | TINY_Compiler/Scanner.cs:60 | `elseif` is one T_ELSEIF token: longest match over `else` and `if` |
| Examples.IffyIsIdentifier | TINY_Compiler/Scanner.cs:59-84 | `iffy` is one identifier, not `if` followed by `fy` |
| Examples.UnderscoreBlocksKeyword | TINY_Compiler/Scanner.cs:52-153 | in `x_int`, `x` is an identifier, the underscore is reported, and `int` is an identifier because the underscore is a word character for `\b` |
| Examples.DigitBlocksKeyword | TINY_Compiler/Scanner.cs:52-84 | `3int` is the number `3` followed by the identifier `int` |
| Examples.NotEqualIsOneToken | TINY_Compiler/Scanner.cs:47-71 | `a<>b` is `a`, one T_NOTEQUAL and `b` |
| Examples.NumberWithFraction | TINY_Compiler/Scanner.cs:83 | `3.14` is one number |
| Examples.NumberWithTrailingPoint | TINY_Compiler/Scanner.cs:83-153 | in `3.`, the number is `3` and the point is reported |
| Examples.ClosedComment | TINY_Compiler/Scanner.cs:96-116 | `x /* hi */ y` is exactly the identifiers `x` and `y`, with no diagnostic |
| Examples.UnclosedCommentRescansLastCharacter | TINY_Compiler/Scanner.cs:99-116 | `x /* hi` is the identifiers `x` and `i` plus one unterminated-comment diagnostic at offset 2 |
| Examples.UnclosedMarkerAtEnd | TINY_Compiler/Scanner.cs:99-116 | `x /*` is the identifier `x` plus one unterminated-comment diagnostic at offset 2; nothing is scanned again |
| Examples.LoneHalfReported | TINY_Compiler/Scanner.cs:46-153 | a lone `:`, `&` or `|` yields no token and one diagnostic |
| Examples.UnclosedString | TINY_Compiler/Scanner.cs:82-153 | in `"a` the quote is reported and `a` is an identifier |

## Left out

- The window, grid and buttons in `TINY_Compiler/TinyProgLang.cs`: presentation only, with no scanning logic.
- The assignment `TINY_Compiler.TokenStream = Tokens` at line 156: it publishes the list to global state outside this file. The list it publishes is the scanner's `tokens` field.
- `Errors.Error_List`: Errors is not part of this model. The shared diagnostic list is an `ErrorList` object whose `list` field `StartScanning` clears and appends to. It is passed as a parameter rather than reached through a static class.
- The text of the two diagnostic messages: each is kept as a structured `LexError` holding the offset (and, for an unrecognized character, the character). Integer-to-string formatting is not modelled.
- The general .NET regular-expression engine: each of the six pattern shapes of the table has its own anchored recognizer. `Regex.Match(s, startat)` followed by the check `Index == currentIndex` becomes a match that must start at the cursor.
- Recognizers.WordAt: `\b` is decided with ASCII word characters only (letters, digits, `_`). .NET also counts non-ASCII word characters.
- Text encoding: a `string` here is a sequence of Unicode scalar values, and offsets count those values. The source indexes UTF-16 code units. A character outside the Basic Multilingual Plane is therefore not modelled as the source sees it. Outside a string literal or comment, the source reports two diagnostics for it (one per surrogate) where the model reports one. Every offset after such a character is one lower in the model than in the messages at lines 114 and 152.
- ScannerObject.Scanner.constructor: the table is stored in one assignment of the 35-entry `RuleTable()`, not by 35 successive `Add` calls. The resulting list is the same.
- Token offsets: the source's `Token` holds only `lex` and `token_type`. `Output.positions` records where each token was matched so that ordering and slicing can be stated; the `Scanner` class does not store them.
- Every character being consumed exactly once: this does not hold for the code as written, because, when at least one character follows the opening marker of an unterminated comment, the last character of the input is scanned again. `StepAt` states instead that the cursor strictly advances; `ScanFromWellFormed` states that tokens never overlap.
