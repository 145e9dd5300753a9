# libconfig language server: a verified model of its core

This project models the core of the libconfig language server for VS Code in Dafny. The server
reads libconfig configuration files (`name = value;` settings, `{ }` groups, `( )` lists,
`[ ]` arrays of scalars, `#`, `//` and `/* */` comments). The modelled core has six parts:

- **The scanner** (`generateScanner`): a character-level tokenizer with a position, a current
  token, its value, its offset and an error code. It comes in two revisions. The TypeScript
  source lets a property name start with `-`. The compiled JavaScript does not. `Chars.Revision`
  selects between them.
- **The diagnostics parser** (`ParseLibConfigDocument`): a recursive-descent parser. It reports
  no problem at the offset of the one just before it, and recovers by skipping tokens. It also collects the ranges
  of comments.
- **The node containers** (`nodeImplementations`): objects reject duplicate property names.
  Arrays reject entries whose type differs from the first entry. Lists accept everything. Each
  rejection is reported to registered error callbacks. The TypeScript classes keep callbacks per
  node. The compiled classes share one static list.
- **The formatter** (`FormatLibConfigDocument`): walks the token stream and emits text edits
  that re-indent and re-space the document.
- **Folding** (`getFoldingRanges`): finds foldable bracket, comment and `#region` ranges. When
  the client's range limit is exceeded, it keeps the shallowest ranges.
- **Validation** (`doValidation`): turns parser problems into diagnostics and drops those whose
  line, character and message repeat an earlier one.

Stateful code is modelled as imperative Dafny: the scanner, parser and formatter are classes
whose fields are the source's closure variables, and the node containers are classes with
`modifies` clauses. Loops become `while`/`for` loops with invariants. Each method is proved
against a pure specification function over the same state. The properties the source promises
are proved about those functions as lemmas:

- tokens lie in the text and scanning terminates;
- no two consecutive problems share an offset, and comment ranges are ordered;
- edits are ordered, disjoint and replace only whitespace;
- folding ranges are well formed, and truncation keeps the limit;
- deduplication keeps exactly one diagnostic per position and message.

Text is a sequence of UTF-16 code units (`seq<int>`). Reading past the end yields `-1`, standing
for JavaScript's `NaN` from `charCodeAt`. Strings handed to clients are `seq<char>`.

## Model

| member | source | states |
|---|---|---|
| Chars.CharAt | server/src/scanner/impl/generateScanner.ts:30 | either NaN (-1) or, for an index inside the text, the code unit at that index |
| Chars.Substring | server/src/scanner/impl/generateScanner.ts:98 | `substring` with clamped, in-order bounds; for valid bounds it is exactly the slice |
| Chars.HexDigitValue | server/src/scanner/impl/generateScanner.ts:31-42 | the value of a hex digit in 0..15, -1 for every other code unit |
| Scanner.Scanner.constructor | server/src/scanner/impl/generateScanner.ts:12-24 | a fresh scanner over the text sits at offset 0 with token Unknown, line 0 and no error |
| Scanner.Scanner.ScanHexDigits | server/src/scanner/impl/generateScanner.ts:26-50 | the loop computes the hex value and end position given by ScanHexDigitsSpec |
| ScannerSpec.ScanHexDigitsSpec | server/src/scanner/impl/generateScanner.ts:26-50 | the hex scan never moves before its start or past the end of the text |
| ScannerSpec.ScanHexDigitsFacts | server/src/scanner/impl/generateScanner.ts:26-50 | every consumed unit is a hex digit; an exact scan reads at most `count` digits; the result is -1 iff fewer than `count` digits were read, else it is below 16^digits; an inexact scan stops at a non-digit |
| ScannerSpec.HexValueBounds | server/src/scanner/impl/generateScanner.ts:32-44 | the accumulated value of j-i hex digits lies in [0, 16^(j-i)) |
| Scanner.Scanner.SetPosition | server/src/scanner/impl/generateScanner.ts:52-58 | the position moves to the new one; the token offset returns to 0; the value is cleared; the token becomes Unknown and the error None |
| Scanner.Scanner.SkipRun | server/src/scanner/impl/generateScanner.ts:66-68 | the loop stops at RunEnd: the first unit past the start that is not in the class, or the end of the text |
| ScannerSpec.RunEnd | server/src/scanner/impl/generateScanner.ts:66-68 | the run end lies in the text, every unit before it is in the class and the unit at it is not |
| Scanner.Scanner.ScanNumber | server/src/scanner/impl/generateScanner.ts:60-99 | the method returns the end, the value text and the error of NumberScanSpec |
| ScannerSpec.NumberScanSpec | server/src/scanner/impl/generateScanner.ts:60-99 | a number consumes at least its first digit; its value ends at or before its end; the only error is UnexpectedEndOfNumber |
| Scanner.Scanner.ScanMantissa | server/src/scanner/impl/generateScanner.ts:61-82 | the integer and fraction part of a number, with the dangling-dot case, as given by MantissaSpec |
| ScannerSpec.MantissaSpec | server/src/scanner/impl/generateScanner.ts:61-82 | the mantissa consumes at least the first digit and stays in the text |
| Scanner.Scanner.ScanExponent | server/src/scanner/impl/generateScanner.ts:83-97 | the exponent part, as given by ExponentScan |
| ScannerSpec.ExponentScan | server/src/scanner/impl/generateScanner.ts:83-97 | the exponent never ends before the mantissa; the only error it raises is UnexpectedEndOfNumber |
| ScannerSpec.LastErrorAssociative | server/src/scanner/impl/generateScanner.ts:101-177 | overwriting the scan error is associative, so the string loop may combine errors in either grouping |
| Scanner.Scanner.ScanEscape | server/src/scanner/impl/generateScanner.ts:117-163 | one backslash escape, decoded as EscapeSpec says |
| ScannerSpec.EscapeSpec | server/src/scanner/impl/generateScanner.ts:117-163 | an escape consumes at least one unit and decodes to at most one character; it decodes to nothing exactly when it sets an error |
| ScannerSpec.StringStepAt | server/src/scanner/impl/generateScanner.ts:105-175 | one step of the string loop either stops in the text or continues strictly forward |
| Scanner.Scanner.ScanString | server/src/scanner/impl/generateScanner.ts:101-177 | the loop returns the end, the decoded value and the last error of StringScanSpec |
| ScannerSpec.StringScanSpec | server/src/scanner/impl/generateScanner.ts:101-177 | a string scan ends in the text, at or after its start |
| ScannerProperties.RunEndIs | server/src/scanner/impl/generateScanner.ts:66-68 | a run of the class that stops at the end of the text or at a unit outside the class is the one RunEnd finds |
| ScannerProperties.IntegerPart | server/src/scanner/impl/generateScanner.ts:61-69 | every number has exactly one integer part: a leading `0` alone, or else the longest run of digits from its first unit |
| ScannerProperties.MantissaMeaning | server/src/scanner/impl/generateScanner.ts:70-81 | the dangling dot occurs exactly when a `.` follows the integer part with no digit after it, and the mantissa then ends just after the dot; otherwise MantissaSpec ends exactly where the integer part, a `.` and every digit after it end |
| ScannerProperties.ExponentMeaning | server/src/scanner/impl/generateScanner.ts:82-97 | without `e`/`E` the number ends at the mantissa; `e`/`E` and an optional sign with no digit after them give UnexpectedEndOfNumber, the value ending at the mantissa and the scan after the sign; otherwise the number takes every digit that follows |
| ScannerProperties.NumberScanMeaning | server/src/scanner/impl/generateScanner.ts:60-99 | a dangling dot ends the number just after the dot with UnexpectedEndOfNumber; otherwise the number is the exponent scan after the whole mantissa |
| ScannerProperties.LeadingZeroAlone | server/src/scanner/impl/generateScanner.ts:62-63 | a `0` followed by a digit is a one-unit number of its own, without error |
| ScannerProperties.NumberErrorCases | server/src/scanner/impl/generateScanner.ts:60-99 | a number without error is returned whole, and a value cut short of the scan always carries UnexpectedEndOfNumber |
| ScannerProperties.PlainRunCopied | server/src/scanner/impl/generateScanner.ts:105-174 | a run of plain units is copied verbatim ahead of whatever follows decodes to; it raises InvalidCharacter exactly when it holds a control character, unless a later error overwrites that |
| ScannerProperties.PlainStringDecodes | server/src/scanner/impl/generateScanner.ts:101-116 | a literal with no backslash up to its closing quote decodes to exactly the units between the quotes and stops just after the quote; its only possible error is InvalidCharacter, raised exactly when a control character appears |
| ScannerProperties.PlainStringUnterminated | server/src/scanner/impl/generateScanner.ts:105-168 | a literal that reaches the end of the text or a line break stops there (before the break), keeps what it read and reports UnexpectedEndOfString |
| ScannerProperties.ControlCharacterKept | server/src/scanner/impl/generateScanner.ts:164-174 | a control character other than a line break is kept in the value and raises an error (InvalidCharacter unless a later error overwrites it), and the scan goes on after it |
| ScannerProperties.EscapeMeaning | server/src/scanner/impl/generateScanner.ts:117-163 | a simple escape stands for its character; `\u` with four hex digits stands for their code; with fewer it stands for nothing, reports InvalidUnicode and stops at the first non-digit; any other letter reports InvalidEscapeCharacter and stands for nothing |
| ScannerProperties.StringStopCases | server/src/scanner/impl/generateScanner.ts:101-177 | a string scan stops in one of three ways: just after a closing quote without UnexpectedEndOfString; at the end of the text with UnexpectedEndOfString; or before a line break with UnexpectedEndOfString |
| Scanner.Scanner.ScanPropertyName | server/out/scanner/impl/generateScanner.js:162-169 | a name runs to the first unit outside the revision's name class, and its value is that text including the first unit |
| Scanner.Scanner.ScanWhitespaceRun | server/src/scanner/impl/generateScanner.ts:207-213 | the whitespace run ends at RunEnd, and its value is the text covered |
| Scanner.Scanner.ScanWhitespace | server/src/scanner/impl/generateScanner.ts:207-215 | the new state is WhitespaceToken of the old one: a Trivia token over the whole run |
| Scanner.Scanner.ScanLineBreak | server/src/scanner/impl/generateScanner.ts:218-228 | the new state is LineBreakToken: CR LF counts as one break, and the line number and line start advance |
| Scanner.Scanner.ScanLineComment | server/src/scanner/impl/generateScanner.ts:267-282 | the new state is LineCommentToken: the comment runs to the next line break, which is left for the next token |
| Scanner.Scanner.SkipBlockCommentBody | server/src/scanner/impl/generateScanner.ts:288-310 | the block comment loop ends where BlockCommentSpec says, counting line breaks and the last line start |
| ScannerSpec.BlockCommentSpec | server/src/scanner/impl/generateScanner.ts:285-318 | a closed comment ends just after `*/`; an unclosed one runs to the last unit of the text (or stays empty); a line start recorded inside lies within the comment |
| Scanner.Scanner.ScanBlockComment | server/src/scanner/impl/generateScanner.ts:285-318 | the new state is BlockCommentToken, with UnexpectedEndOfComment when `*/` is missing |
| Scanner.Scanner.ScanNumberToken | server/src/scanner/impl/generateScanner.ts:334-354 | the new state is NumberToken: a NumericLiteral from a digit, or Unknown for `-` not followed by a digit |
| Scanner.Scanner.ScanWord | server/src/scanner/impl/generateScanner.ts:356-386 | the new state is WordToken: a property name, `true`/`false`, or an Unknown run |
| Scanner.Scanner.ScanNext | server/src/scanner/impl/generateScanner.ts:190-387 | one token: the new state is ScanNextSpec of the old, and the returned kind is the token |
| ScannerSpec.ScanNextAtEnd | server/src/scanner/impl/generateScanner.ts:199-203 | at or past the end of the text, scanning yields EOF at the text's length and moves nothing else |
| ScannerSpec.ScanNextEof | server/src/scanner/impl/generateScanner.ts:190-203 | scanning yields EOF exactly when the position is at or past the end of the text |
| ScannerSpec.ScanNextInText | server/src/scanner/impl/generateScanner.ts:190-387 | inside the text a token starts at the old position and ends strictly after it, within the text. The one exception is the unterminated block comment's overshoot. Whitespace and line-break tokens cover only such units, and only line breaks and block comments change the line number |
| ScannerSpec.LexAtInText | server/src/scanner/impl/generateScanner.ts:229-386 | the same guarantees for every branch of the dispatch on the first unit |
| ScannerSpec.ScanNonTriviaSpec | server/src/scanner/impl/generateScanner.ts:407-413 | scanning while the token is trivia ends on a token that is not trivia |
| Scanner.Scanner.ScanNextNonTrivia | server/src/scanner/impl/generateScanner.ts:407-413 | the loop computes ScanNonTriviaSpec and returns a token that is not trivia |
| Scanner.Scanner.Scan | server/out/scanner/impl/generateScanner.js:377 | `scan` skips trivia exactly when the scanner was created with ignoreTrivia |
| ParserSpec.ScanStep | server/src/parser/libConfigParser.ts:36 | a scan never moves back and stays within one past the text; it lowers the termination rank unless the token was EOF; and it yields EOF exactly at the end |
| ParserSpec.ScanNextP | server/src/parser/libConfigParser.ts:34-52 | `_scanNext` returns a token that is not trivia, keeps the problem and comment invariants, and moves forward unless at EOF |
| Parser.Parser.ScanNext | server/src/parser/libConfigParser.ts:34-52 | the method's new parser state is ScanNextP of the old, whose meaning ParserDiagnostics.ScanNextStopsOnLast, ScanNextRecordsComments, ScanNextReportsOnlyScanErrors and ScanErrorsReported state: it stops on the first token that is not trivia, records every comment's range in order, and reports the scan errors of the tokens it reads and nothing else |
| Parser.Parser.ScanToken | server/src/parser/libConfigParser.ts:36-47 | one pass of the loop: scan, check the scan error, record a comment's range, as ScanTokenP |
| ParserProperties.ScanNextIsNonTriviaScan | server/src/parser/libConfigParser.ts:34-52 | the scanner state `_scanNext` leaves is exactly the scanner's own non-trivia scan |
| ParserProperties.ScanNextAtEndOfText | server/src/parser/libConfigParser.ts:34-52 | at the end of the text `_scanNext` yields EOF and records nothing |
| ParserSpec.ErrorRange | server/src/parser/libConfigParser.ts:223-231 | the reported range is ordered and is empty only at offset 0 |
| ParserSpec.BackOverSpace | server/src/parser/libConfigParser.ts:225-230 | backing over whitespace stays between 0 and the start |
| ParserProperties.BackOverSpaceStops | server/src/parser/libConfigParser.ts:227-229 | the backward walk stops at 0 or on a non-space unit, and every unit it passed over is a space |
| Parser.Parser.ErrorAtRange | server/src/parser/libConfigParser.ts:213-220 | a problem is appended only if none is recorded yet or its start differs from the last one's |
| ParserSpec.ErrorAt | server/src/parser/libConfigParser.ts:222-232 | reporting at the current token leaves the scanner and comments alone and keeps the problem invariant |
| Parser.Parser.ReportError | server/src/parser/libConfigParser.ts:222-232 | the method's new state is ErrorAt of the old |
| ParserSpec.SkipP | server/src/parser/libConfigParser.ts:234-245 | the recovery skip keeps the invariants and moves forward unless it stops at once |
| ParserProperties.SkipUntilStops | server/src/parser/libConfigParser.ts:236-244 | skipping until a token set stops only on EOF or on a token of that set |
| ParserProperties.SkipIgnoresLineBreak | server/src/parser/libConfigParser.ts:234-245 | a LineBreakTrivia in the skip-after set has no effect, since `_scanNext` never returns trivia |
| ParserSpec.ErrorP | server/src/parser/libConfigParser.ts:222-246 | `_error` keeps the invariants, and when it has a skip-after set and is not at a stop token it moves forward |
| Parser.Parser.Error | server/src/parser/libConfigParser.ts:222-246 | the method's new state is ErrorP of the old |
| ParserSpec.CheckScanError | server/src/parser/libConfigParser.ts:248-270 | a scan error is turned into a problem at the current token without moving the scanner |
| Parser.Parser.CheckScanError | server/src/parser/libConfigParser.ts:248-270 | the method's state is CheckScanError's, and it answers true exactly when the scanner holds one of the six errors |
| ParserSpec.ParseSettingP | server/src/parser/libConfigParser.ts:54-73 | a setting keeps the invariants and moves forward unless at EOF |
| Parser.Parser.ParseSetting | server/src/parser/libConfigParser.ts:54-73 | the method's new state is ParseSettingP of the old, whose reports and resumption ParserDiagnostics.SettingWithoutName and SettingWithoutSetter state |
| ParserSpec.ParseValueP | server/src/parser/libConfigParser.ts:75-106 | a value moves forward when it scans, and it never reports the Boolean kind (booleans come out as Number) |
| Parser.Parser.ParseValue | server/src/parser/libConfigParser.ts:75-106 | the method's state and kind are ParseValueP's |
| ParserSpec.ValueAtP | server/src/parser/libConfigParser.ts:77-105 | the dispatch on the current token keeps the invariants and never yields Boolean |
| Parser.Parser.ValueAt | server/src/parser/libConfigParser.ts:77-105 | the method's state and kind are ValueAtP's |
| ParserSpec.ParseGroupP | server/src/parser/libConfigParser.ts:108-117 | a group always moves forward |
| ParserSpec.GroupLoopP | server/src/parser/libConfigParser.ts:111-116 | the settings loop ends on `}` or EOF |
| Parser.Parser.ParseGroup | server/src/parser/libConfigParser.ts:108-117 | the method's new state is ParseGroupP of the old |
| ParserSpec.ParseListP | server/src/parser/libConfigParser.ts:119-145 | a list always moves forward |
| ParserSpec.ListLoopP | server/src/parser/libConfigParser.ts:130-144 | the list loop ends on `)` or EOF |
| Parser.Parser.ParseList | server/src/parser/libConfigParser.ts:119-145 | the method's new state is ParseListP of the old, whose recovery after a missing comma ParserDiagnostics.ListAfterMissingComma states |
| ParserSpec.ValidateArrayEntry | server/src/parser/libConfigParser.ts:154-166 | a non-scalar first kind is reported, without moving the scanner |
| Parser.Parser.ValidateArrayEntry | server/src/parser/libConfigParser.ts:154-166 | the method's new state is ValidateArrayEntry's |
| ParserSpec.ParseArrayP | server/src/parser/libConfigParser.ts:147-198 | an array always moves forward |
| ParserSpec.ArrayLoopP | server/src/parser/libConfigParser.ts:172-197 | the corrected array loop ends on `]` or EOF |
| ParserSpec.ArrayEntryP | server/src/parser/libConfigParser.ts:185-196 | one entry after a comma moves forward, and adopts the entry's kind when the first kind was Invalid |
| Parser.Parser.ParseArray | server/src/parser/libConfigParser.ts:147-198 | the method's new state is ParseArrayP of the old |
| Parser.Parser.ArrayLoopIteration | server/src/parser/libConfigParser.ts:176-196 | one iteration lowers the rank and leaves the rest of the loop's result unchanged |
| Parser.Parser.ParseArrayEntry | server/src/parser/libConfigParser.ts:185-196 | the method's state and first kind are ArrayEntryP's, whose reports and adopted kind ParserDiagnostics.ArrayEntryReports states |
| ParserSpec.ParseTerminatorP | server/src/parser/libConfigParser.ts:200-211 | the terminator check keeps the invariants |
| Parser.Parser.ParseTerminator | server/src/parser/libConfigParser.ts:200-211 | the method's new state is ParseTerminatorP of the old |
| ParserProperties.TerminatorSkipsPastSemicolon | server/src/parser/libConfigParser.ts:202-206 | the missing-terminator recovery behaves as if it skipped past `;` alone |
| ParserSpec.DocumentLoopP | server/src/parser/libConfigParser.ts:272-275 | the top-level loop ends on EOF and keeps the invariants |
| ParserSpec.ParseDocumentP | server/src/parser/libConfigParser.ts:26-277 | the whole parse ends on EOF. No two neighbouring problems share a start, every problem range is ordered and non-empty except at 0, and the comment ranges are non-empty, ordered and disjoint |
| Parser.Parser.Parse | server/src/parser/libConfigParser.ts:272-276 | the method's final state is ParseDocumentP of the text |
| Parser.ParseLibConfigDocument | server/out/parser/libConfigParser.js:8-204 | the returned problems and comment ranges are those of ParseDocumentP |
| ParserDiagnostics.SkipStops | server/src/parser/libConfigParser.ts:234-245 | the skip of `_error` passes over every token that is neither EOF nor in a skip set, and stops at the first that is: on EOF, just after a token of the skip-after set, or on a token only in the stop set |
| ParserDiagnostics.SkipPastSemicolon | server/src/parser/libConfigParser.ts:234-245 | a skip past `;` resumes just after the first `;` read, or at EOF, having passed only tokens that are neither |
| ParserDiagnostics.SkipPastEither | server/src/parser/libConfigParser.ts:234-245 | a skip from a token that is not EOF ends just after a token of its skip-after set, or at EOF |
| ParserDiagnostics.ErrorReports | server/src/parser/libConfigParser.ts:213-232 | `_error` records its problem at the current token unless the last problem already starts there, and after that only appends |
| ParserDiagnostics.SettingWithoutName | server/src/parser/libConfigParser.ts:54-61 | a setting that does not start with a name reports PropertyExpected at its first token, and parsing resumes just after the next `;`, or at EOF |
| ParserDiagnostics.SettingWithoutSetter | server/src/parser/libConfigParser.ts:62-70 | a name followed by neither `=` nor `:` reports ColonExpected at the token after the name, and parsing resumes just after the next `;`, or at EOF |
| ParserDiagnostics.TerminatorMissing | server/src/parser/libConfigParser.ts:200-207 | a value not followed by `;` reports SemicolonExpected at the token after it, and parsing resumes just after the next `;`, or at EOF; line ends do not stop the skip |
| ParserDiagnostics.ListLoopIsMissingCommaLoop | server/src/parser/libConfigParser.ts:130-141 | once `nextToken` is not a comma it is never read again, so the list loop only reports and skips |
| ParserDiagnostics.MissingCommaRecovers | server/src/parser/libConfigParser.ts:130-141 | from a token that is neither `)` nor EOF, the loop reports CommaExpected there and stops only at EOF or on a `)` read right after a `)` or `,` |
| ParserDiagnostics.ListAfterMissingComma | server/src/parser/libConfigParser.ts:128-144 | after a list element not followed by a comma, CommaExpected is reported at the current token, no further element is parsed, and the list ends only at EOF or on a `)` read right after a `)` or `,`, so a closing `)` followed by other tokens does not end it |
| ParserDiagnostics.CommaErrorSkips | server/src/parser/libConfigParser.ts:134-141 | one pass of that recovery: the report, then a skip just past the next `)` or `,`, or to EOF |
| ParserDiagnostics.ArrayEntryReports | server/src/parser/libConfigParser.ts:185-196 | after a comma, a non-scalar first kind reports "Array entries must be scalar values" after the element; otherwise an element of another kind than the first reports MismatchArrayType, and a matching one reports nothing and reads on; an Invalid first kind takes the element's kind |
| ParserDiagnostics.ScannedTokens | server/src/parser/libConfigParser.ts:34-52 | the tokens one call of `_scanNext` scans: all trivia except the last, and all well formed |
| ParserDiagnostics.ScanNextStopsOnLast | server/src/parser/libConfigParser.ts:34-52 | `_scanNext` stops on the last token it scans, the first that is not trivia |
| ParserDiagnostics.ScanNextRecordsComments | server/src/parser/libConfigParser.ts:38-44 | the ranges `_scanNext` records are exactly those of the comment tokens it scans, in order |
| ParserDiagnostics.ScanNextReportsOnlyScanErrors | server/src/parser/libConfigParser.ts:34-52 | every problem `_scanNext` adds reports the scan error of a token it scanned, with that error's message, code and range |
| ParserDiagnostics.ScanErrorsReported | server/src/parser/libConfigParser.ts:34-52 | every token `_scanNext` scans with a reportable scan error leaves a problem starting where that error's range starts: its own, or the last one already there at that offset |
| ParserDiagnostics.ScanTokenAdds | server/src/parser/libConfigParser.ts:36-44 | one pass of the loop records a comment's range and adds no problem but its token's scan error |
| ParserDiagnostics.ScanTokenRecords | server/src/parser/libConfigParser.ts:36-37 | one pass leaves a problem at the start of its token's scan error, when there is one |
| ParserProperties.EmptyDocument | server/src/parser/libConfigParser.ts:272-276 | an empty document has no problems and no comments |
| ParserProperties.ArrayStepAsWritten | server/src/parser/libConfigParser.ts:172-197 | the loop body as written: a stale comma flag can only be carried while the scanner sits on a comma |
| ParserProperties.ArrayAsWrittenStallsAtComma | server/src/parser/libConfigParser.ts:176-183 | as written, on a comma with a stale non-comma flag, the iteration changes nothing and repeats forever |
| ParserProperties.ArrayLoopAsWrittenNeverLeaves | server/src/parser/libConfigParser.ts:172-197 | as written, after a missing comma whose recovery stops on a comma, the loop reaches a fixed point that is neither `]` nor EOF |
| ParserProperties.ArrayLoopLeavesAfterMissingComma | server/src/parser/libConfigParser.ts:176-183 | in the corrected loop, the missing-comma recovery strictly lowers the rank and the loop goes on from there |
| NodeBase.ErrorCallbacks.constructor | server/src/dataClasses/nodeImplementations.ts:31 | a node starts with no callbacks and no calls made |
| NodeBase.ErrorCallbacks.AddErrorCallback | server/src/dataClasses/nodeImplementations.ts:37-39 | the callback is appended and nothing is called |
| NodeBase.ErrorCallbacks.Error | server/src/dataClasses/nodeImplementations.ts:45-49 | every registered callback is called once, in order, with the report |
| NodeBase.CallsForOrder | server/src/dataClasses/nodeImplementations.ts:45-49 | the calls of one report are one per callback, in registration order |
| NodeBase.BroadcastWithoutCallbacks | server/src/dataClasses/nodeImplementations.ts:59-66 | with no callbacks registered, errors produce no calls at all |
| NodeBase.BroadcastAppend | server/src/dataClasses/nodeImplementations.ts:45-49 | the calls of two report sequences are the calls of each, in order |
| NodeBase.CountZero | server/src/dataClasses/nodeImplementations.ts:124-137 | a name is counted zero times iff no property has it |
| NodeBase.DistinctCountAtMostOne | server/src/dataClasses/nodeImplementations.ts:124-137 | in a list of distinct names each name occurs at most once |
| NodeBase.AddNamedKeepsDistinct | server/src/dataClasses/nodeImplementations.ts:113-122 | adding a property through the duplicate check keeps the names distinct |
| NodeBase.AddAllNamedSpec | server/src/dataClasses/nodeImplementations.ts:100-111 | adding many properties keeps names distinct, adds only given properties, and keeps one for every given name |
| NodeBase.CountAtLeast | server/src/dataClasses/nodeImplementations.ts:124-137 | a longer prefix of properties counts a name at least as often |
| NodeBase.AddScalarSpec | server/src/dataClasses/nodeImplementations.ts:245-273 | an array entry is appended iff the array is empty or the entry has the first entry's type; otherwise the array is unchanged |
| NodeBase.OfTypeSameType | server/src/dataClasses/nodeImplementations.ts:259-273 | every entry kept by the type filter has the requested type |
| NodeBase.AddScalarsKeepsFirstType | server/src/dataClasses/nodeImplementations.ts:232-243 | adding entries to a non-empty array appends exactly those of its first entry's type |
| NodeBase.AddScalarsFromEmpty | server/src/dataClasses/nodeImplementations.ts:211-243 | an empty array filled with entries keeps exactly those of the first entry's type |
| NodeBase.OfTypeStartsWith | server/src/dataClasses/nodeImplementations.ts:259-273 | the first entry always survives the filter by its own type |
| Nodes.DuplicateReportedOnce | server/src/dataClasses/nodeImplementations.ts:124-137 | a property is reported once per earlier property of the same name |
| Nodes.ObjectNode.constructor | server/src/dataClasses/nodeImplementations.ts:79-98 | the node holds the given properties minus later duplicates; the given callbacks are never registered |
| Nodes.ObjectNode.AddErrorCallback | server/src/dataClasses/nodeImplementations.ts:37-39 | the callback is appended to this node's own list |
| Nodes.ObjectNode.AddChildren | server/src/dataClasses/nodeImplementations.ts:100-111 | each child is added unless its name is already present, and each rejection is broadcast to the callbacks |
| Nodes.ObjectNode.AddChild | server/src/dataClasses/nodeImplementations.ts:113-122 | one child is added unless its name is present, and a rejection is broadcast |
| Nodes.ObjectNode.Validate | server/src/dataClasses/nodeImplementations.ts:124-137 | valid iff no property has the child's name, with one report per clash |
| Nodes.ListNode.constructor | server/src/dataClasses/nodeImplementations.ts:148-167 | the list holds the given children, and no callbacks are registered |
| Nodes.ListNode.AddErrorCallback | server/src/dataClasses/nodeImplementations.ts:37-39 | the callback is appended to this node's own list |
| Nodes.ListNode.AddChildren | server/src/dataClasses/nodeImplementations.ts:169-180 | every child is appended in order, with no reports |
| Nodes.ListNode.AddChild | server/src/dataClasses/nodeImplementations.ts:182-191 | the child is appended |
| Nodes.ListNode.Validate | server/src/dataClasses/nodeImplementations.ts:193-197 | every child is valid for a list |
| Nodes.ArrayNode.constructor | server/src/dataClasses/nodeImplementations.ts:211-230 | the array holds the given entries of the first entry's type, and no callbacks are registered |
| Nodes.ArrayNode.AddErrorCallback | server/src/dataClasses/nodeImplementations.ts:37-39 | the callback is appended to this node's own list |
| Nodes.ArrayNode.AddChildren | server/src/dataClasses/nodeImplementations.ts:232-243 | the entries are filtered by AddScalar one at a time, and each mismatch is broadcast |
| Nodes.ArrayNode.AddChild | server/src/dataClasses/nodeImplementations.ts:245-257 | the entry is added iff it fits AddScalar, and a mismatch is broadcast |
| Nodes.ArrayNode.Validate | server/src/dataClasses/nodeImplementations.ts:259-273 | valid iff the entry has the expected type (that of the first entry, or its own when empty); a mismatch is reported |
| Nodes.ScalarNode.constructor | server/src/dataClasses/nodeImplementations.ts:313-331 | a scalar holds its offset, length and value |
| Nodes.ScalarNode.AsElement | server/src/dataClasses/nodeImplementations.ts:280-295 | the scalar as an array entry keeps its kind, offset and length |
| Nodes.ScalarNode.Children | server/src/dataClasses/nodeImplementations.ts:307-310 | a scalar has no children |
| CompiledNodes.PropertyNode.constructor | server/out/dataClasses/nodeImplementations.js:36-46 | a property holds its name and value |
| CompiledNodes.PropertyNode.AddChild | server/out/dataClasses/nodeImplementations.js:47-49 | offering a child to a property changes nothing; the source only logs to the console, which is left out |
| CompiledNodes.DuplicateReportedOnce | server/out/dataClasses/nodeImplementations.js:87-98 | a property is reported once per earlier property of the same name |
| CompiledNodes.ObjectNode.constructor | server/out/dataClasses/nodeImplementations.js:53-64 | the node holds the given properties minus later duplicates, and reports go to the shared static list |
| CompiledNodes.ObjectNode.AddChildren | server/out/dataClasses/nodeImplementations.js:65-76 | each child is added unless its name is present, and rejections are broadcast to the shared callbacks |
| CompiledNodes.ObjectNode.AddChild | server/out/dataClasses/nodeImplementations.js:77-86 | one child is added unless its name is present |
| CompiledNodes.ObjectNode.Validate | server/out/dataClasses/nodeImplementations.js:87-98 | valid iff no property has the child's name |
| CompiledNodes.ListNode.constructor | server/out/dataClasses/nodeImplementations.js:108-119 | the list holds the given children |
| CompiledNodes.ListNode.AddChildren | server/out/dataClasses/nodeImplementations.js:120-131 | every child is appended in order |
| CompiledNodes.ListNode.AddChild | server/out/dataClasses/nodeImplementations.js:132-141 | the child is appended |
| CompiledNodes.ListNode.Validate | server/out/dataClasses/nodeImplementations.js:142-145 | every child is valid for a list |
| CompiledNodes.ArrayNode.constructor | server/out/dataClasses/nodeImplementations.js:155-166 | the array holds the given entries of the first entry's type |
| CompiledNodes.ArrayNode.AddChildren | server/out/dataClasses/nodeImplementations.js:167-178 | entries are filtered by AddScalar, and mismatches are broadcast to the shared callbacks |
| CompiledNodes.ArrayNode.AddChild | server/out/dataClasses/nodeImplementations.js:179-190 | the entry is added iff it fits AddScalar |
| CompiledNodes.ArrayNode.Validate | server/out/dataClasses/nodeImplementations.js:191-205 | valid iff the entry has the expected type |
| FormatHelpers.TabSize | server/out/format/libConfigFormat.js:25 | the default of 4: never zero, and the given size whenever a non-zero one is given |
| FormatHelpers.Repeat | server/out/format/libConfigFormat.js:149-155 | the loop yields Copies(s, count): `count` copies of `s`, none for count ≤ 0 |
| FormatHelpers.CopiesLength | server/out/format/libConfigFormat.js:149-155 | `repeat` has count times the length of s (none for count ≤ 0) |
| FormatHelpers.CopiesAdd | server/out/format/libConfigFormat.js:149-155 | repeating a+b times is repeating a times, then b times |
| FormatHelpers.FirstBreak | server/out/format/libConfigFormat.js:176-187 | the search stops at the first CR or LF, or at the end of the text |
| FormatHelpers.GetEol | server/out/format/libConfigFormat.js:175-191 | the loop computes EolOf |
| FormatHelpers.EolIsFirstTerminator | server/out/format/libConfigFormat.js:175-191 | the line ending is the text's first terminator (CR LF, CR or LF); without one, the option's eol, else LF |
| FormatHelpers.ComputeIndentLevel | server/out/format/libConfigFormat.js:156-174 | the loop computes IndentLevelOf: leading columns (space 1, tab tabSize) divided by tabSize, floored |
| FormatHelpers.IndentColumns | server/out/format/libConfigFormat.js:156-174 | n indent units span n·tabSize columns |
| FormatHelpers.IndentLevelOfIndent | server/out/format/libConfigFormat.js:149-174 | computeIndentLevel undoes repeat: a line indented with n units has indent level n |
| FormatHelpers.IndexOf | server/out/format/libConfigFormat.js:193 | `indexOf` returns -1 or an index where the needle occurs |
| FormatHelpers.IsEolIff | server/out/format/libConfigFormat.js:192-194 | isEOL holds iff the unit is CR or LF, or the offset is outside the text |
| FormatSpec.SkipTriviaF | server/out/format/libConfigFormat.js:38-42 | skipping trivia ends on a token that is neither Trivia nor LineBreakTrivia, never moving back; the line-break flag is FormatLines.SkipTriviaLineBreak's |
| FormatSpec.ScanNextF | server/out/format/libConfigFormat.js:35-45 | the formatter's scanNext returns a non-trivia token, moves forward unless at EOF, and keeps the edits and indent |
| FormatSpec.CommentLoopF | server/out/format/libConfigFormat.js:62-69 | the same-line comment loop keeps the indent, only appends edits, and ends on a line break or a non-comment; the single space it proposes is FormatLines.SameLineCommentSpaced's |
| FormatSpec.FormatStepF | server/out/format/libConfigFormat.js:59-144 | one pass of the main loop moves the scanner strictly forward |
| FormatSpec.FormatLoopF | server/out/format/libConfigFormat.js:58-145 | the main loop ends at EOF |
| FormatSpec.FormatStart | server/out/format/libConfigFormat.js:52-57 | the first token is scanned and the leading indent edit is proposed |
| Formatter.Formatter.constructor | server/out/format/libConfigFormat.js:10-31 | the closure variables start as the source sets them |
| Formatter.Formatter.NewLineAndIndent | server/out/format/libConfigFormat.js:32-34 | the eol followed by indentLevel indent units |
| Formatter.Formatter.ScanNext | server/out/format/libConfigFormat.js:35-45 | the new state is ScanNextF of the old |
| Formatter.Formatter.ScanOne | server/out/format/libConfigFormat.js:36 | one scanner step, as ScanNextSpec |
| Formatter.Formatter.SkipTrivia | server/out/format/libConfigFormat.js:38-42 | the trivia loop computes SkipTriviaF; FormatLines.ScanNextLineBreak states that lineBreak is set iff a line break lies in the skipped gap |
| Formatter.Formatter.AddEdit | server/out/format/libConfigFormat.js:47-51 | an edit is recorded only when there is no error, the range meets the text and the content differs |
| Formatter.Formatter.CommentLoop | server/out/format/libConfigFormat.js:62-69 | the method's state is CommentLoopF's; FormatLines.SameLineCommentSpaced and CommentAfterBreakOwnLine state which edit a comment gets |
| Formatter.Formatter.BeforeCloser | server/out/format/libConfigFormat.js:70-87 | before a closer: dedent and break unless it closes an empty pair |
| Formatter.Formatter.AfterValue | server/out/format/libConfigFormat.js:121-133 | after a value: a space before a comment, an error before anything but a comma or EOF |
| Formatter.Formatter.DecideByFirst | server/out/format/libConfigFormat.js:89-137 | the switch on the first token, as DecideByFirst |
| Formatter.Formatter.CommentOnOwnLine | server/out/format/libConfigFormat.js:138-140 | a comment after a line break goes on its own, indented line |
| Formatter.Formatter.BeforeOther | server/out/format/libConfigFormat.js:88-141 | the switch followed by the comment override, as BeforeOther |
| Formatter.Formatter.FormatStep | server/out/format/libConfigFormat.js:59-144 | the new state is FormatStepF of the old |
| Formatter.Formatter.Format | server/out/format/libConfigFormat.js:52-146 | the edits are FormatLoopF's from the start state |
| Formatter.FormatLibConfigDocument | server/out/format/libConfigFormat.js:9-147 | the edits returned are FormatF of the text and options |
| FormatProperties.FormatEditsInOrder | server/out/format/libConfigFormat.js:9-147 | every edit lies in the text; the edits are in order and do not overlap; each replaces only whitespace and line breaks |
| FormatProperties.OpenerIndents | server/out/format/libConfigFormat.js:90-95 | after an opener not followed by a closer, the indent grows by one and a new line starts |
| FormatProperties.CloserDedents | server/out/format/libConfigFormat.js:70-87 | before a closer, the indent shrinks by one with a new line, except right after its own opener |
| FormatProperties.SeparatorBreaksLine | server/out/format/libConfigFormat.js:96-101 | after `,` `;` `:` or a line comment, a new line at the same indent |
| FormatProperties.NameAndEqualsSpaced | server/out/format/libConfigFormat.js:111-114 | after a name or `=`, exactly one space |
| FormatProperties.BrokenGapFlagged | server/out/format/libConfigFormat.js:115-136 | a value followed by something other than a closer, comment, comma or EOF sets the error flag |
| FormatProperties.DecideBounds | server/out/format/libConfigFormat.js:70-140 | Decide never clears the error flag, and one pass changes the indent by at most one |
| FormatProperties.FlaggedGapUnedited | server/out/format/libConfigFormat.js:47-51 | addEdit records nothing while the error flag is set |
| FormatProperties.EmptyDocumentUnedited | server/out/format/libConfigFormat.js:52-58 | an empty document yields no edits |
| FormatLines.HasLineBreakJoin | server/out/format/libConfigFormat.js:37-42 | a gap holds a line break iff one of its two parts does |
| FormatLines.NextTokenSpans | server/src/scanner/impl/generateScanner.ts:204-227 | a scanned token starts where the scan stood; whitespace trivia spans only whitespace, line-break trivia only (and at least one) line-break unit |
| FormatLines.TokenLineBreak | server/src/scanner/impl/generateScanner.ts:206-227 | a trivia token holds a line break iff it is LineBreakTrivia |
| FormatLines.SkipTriviaLineBreak | server/out/format/libConfigFormat.js:37-42 | the trivia loop sets lineBreak iff it was set already or a line break lies between the first skipped token and the token it stops on |
| FormatLines.ScanNextLineBreak | server/out/format/libConfigFormat.js:35-45 | scanNext's lineBreak holds iff a line break (LF, CR, LS or PS) lies between the old position and the new token |
| FormatLines.AddEditAppends | server/out/format/libConfigFormat.js:47-51 | addEdit only appends |
| FormatLines.StepAppendsToCommentLoop | server/out/format/libConfigFormat.js:59-144 | the edits the comment loop made survive the rest of the pass |
| FormatLines.CommentLoopSpacesFirst | server/out/format/libConfigFormat.js:63-64 | the first same-line comment's space edit survives the rest of the loop |
| FormatLines.AddEditRecords | server/out/format/libConfigFormat.js:47-51 | with no error, a gap inside the text and different content, addEdit appends exactly that edit |
| FormatLines.CommentLoopSpaced | server/out/format/libConfigFormat.js:61-67 | a comment on the same line as the token before it gets one edit replacing the gap by a single space |
| FormatLines.StepSpacesComment | server/out/format/libConfigFormat.js:59-67 | the same holds for the whole pass |
| FormatLines.SameLineCommentSpaced | server/out/format/libConfigFormat.js:59-67 | when no line break separates a token from the comment after it, the pass proposes exactly a single space for that gap (unless flagged or already so) |
| FormatLines.DecideByFirstBeforeComment | server/out/format/libConfigFormat.js:89-137 | before a comment the switch sets the indent (one deeper after an opener) and flags only after an unknown token |
| FormatLines.CommentAfterBreakDecision | server/out/format/libConfigFormat.js:70-140 | a comment after a line break gets a line break and the indent, whatever the token before it |
| FormatLines.StepAfterBreak | server/out/format/libConfigFormat.js:59-144 | such a pass is a single addEdit of that content over the gap |
| FormatLines.AddEditGap | server/out/format/libConfigFormat.js:47-51 | addEdit on a gap inside the text: the edits grow by that edit exactly when unflagged and different |
| FormatLines.StepOwnLine | server/out/format/libConfigFormat.js:138-143 | given the line-break flag, the pass's exact new scan, indent and edits before an own-line comment |
| FormatLines.CommentAfterBreakOwnLine | server/out/format/libConfigFormat.js:138-143 | when a line break separates a token from the comment after it, the pass replaces the gap by a line break and the indent and makes no other edit |
| Folding.FindRegion | server/out/folding/libConfigFolding.js:77-80 | the downward search finds the innermost open region, or -1 |
| FoldingSpec.InnermostRegion | server/out/folding/libConfigFolding.js:77-80 | the index is a region, and no region lies above it on the stack |
| Folding.Open | server/out/folding/libConfigFolding.js:19-30 | an opener pushes an object or array range starting on its line |
| Folding.Close | server/out/folding/libConfigFolding.js:31-45 | a closer pops a matching range, and records it when it spans more than one line and does not start where the previous one did |
| Folding.BlockComment | server/out/folding/libConfigFolding.js:46-66 | an unterminated comment rewinds the scan to the next line; a multi-line comment is recorded |
| Folding.LineComment | server/out/folding/libConfigFolding.js:67-93 | `#region` pushes a region; `endregion` pops to the innermost region and records it if it spans lines |
| Folding.FoldToken | server/out/folding/libConfigFolding.js:18-93 | the switch on the token, as FoldTokenF |
| Folding.GetFoldingRanges | server/out/folding/libConfigFolding.js:5-133 | the method's result is FoldingRangesF of the document and context |
| FoldingProperties.RecordOk | server/out/folding/libConfigFolding.js:13-16 | recording a well-formed range keeps the ranges and levels in step and remembers its start |
| FoldingProperties.PopOk | server/out/folding/libConfigFolding.js:37 | popping the stack keeps the scan invariant |
| FoldingProperties.CloseOk | server/out/folding/libConfigFolding.js:31-45 | a closer keeps the scan invariant |
| FoldingProperties.BlockCommentOk | server/out/folding/libConfigFolding.js:46-66 | a block comment keeps the scan invariant |
| FoldingProperties.LineCommentOk | server/out/folding/libConfigFolding.js:67-93 | a line comment keeps the scan invariant |
| FoldingProperties.FoldTokenOk | server/out/folding/libConfigFolding.js:18-93 | every token keeps the scan invariant |
| FoldingProperties.FoldLoopOk | server/out/folding/libConfigFolding.js:17-95 | the whole scan keeps the invariant |
| FoldingProperties.ScanRangesOk | server/out/folding/libConfigFolding.js:17-95 | every range found starts before it ends and lies within the document's lines; there is one nesting level per range, never negative; consecutive non-comment ranges start on different lines |
| FoldingSpec.FoldLoopLevels | server/out/folding/libConfigFolding.js:13-16 | the scan records one nesting level per range |
| Folding.CountLevels | server/out/folding/libConfigFolding.js:104-109 | the loop builds the histogram of levels below 30 |
| FoldingProperties.HistogramCounts | server/out/folding/libConfigFolding.js:104-109 | the histogram has at most 30 buckets, and bucket l counts the ranges at level l |
| FoldingProperties.HistogramPrefixSum | server/out/folding/libConfigFolding.js:104-121 | the first j buckets sum to the number of ranges below level j |
| Folding.FindCutoff | server/out/folding/libConfigFolding.js:110-121 | the loop finds the cut-off level and the entries below it, as CutoffF |
| FoldingProperties.CutoffFacts | server/out/folding/libConfigFolding.js:110-121 | the entries counted below the cut-off level are the sum of those buckets and stay within the limit; either adding the cut-off level's bucket would exceed the limit, or no level does and the cut-off is level 0 with every bucket counted |
| Folding.Select | server/out/folding/libConfigFolding.js:122-131 | the loop computes SelectF |
| FoldingProperties.SelectCount | server/out/folding/libConfigFolding.js:122-131 | the selection's length is the number of ranges shallower than the cut-off level, plus as many at that level as the room the running count leaves |
| FoldingProperties.SelectSubsequence | server/out/folding/libConfigFolding.js:122-131 | the selection keeps ranges in their original order |
| FoldingProperties.SelectFilters | server/out/folding/libConfigFolding.js:122-131 | the selection loop keeps exactly the ranges KeepMask marks, where the running count at a range is the cut-off loop's count plus the ranges at the cut-off level before it |
| FoldingProperties.SelectShallowest | server/out/folding/libConfigFolding.js:122-131 | the selection keeps every range shallower than the cut-off level and none deeper; of the ranges at that level it keeps a first run, since a kept one has every earlier one kept |
| FoldingProperties.OverLimitShallowest | server/out/folding/libConfigFolding.js:101-131 | over the limit, the ranges returned are exactly those KeepMask marks at the cut-off level the histogram gives |
| Folding.Truncate | server/out/folding/libConfigFolding.js:96-132 | the result is LimitF |
| FoldingProperties.WithinLimitUnchanged | server/out/folding/libConfigFolding.js:97-100 | without a numeric limit, or within it, all ranges are returned and nothing is reported |
| FoldingProperties.OverLimitTruncated | server/out/folding/libConfigFolding.js:101-132 | over the limit, the excess is reported iff the client asked, and the result is an ordered selection of at most max(limit, 0) ranges. It has exactly `limit` ranges when the limit is non-negative and every level is below 30 |
| FoldingProperties.FoldingRangesLimited | server/out/folding/libConfigFolding.js:5-133 | the whole of getFoldingRanges: well-formed ranges, and the limit is honoured |
| Validation.ToProblem | server/src/parser/libConfigParser.ts:215-218 | a parser problem becomes a diagnostic at positionAt of its offsets, with its message and code, severity Error and the document's language as source |
| Validation.DecimalTextShape | server/src/validation/libConfigValidation.ts:24 | a number's decimal text is non-empty and has no space |
| Validation.DecimalTextInjective | server/src/validation/libConfigValidation.ts:24 | different numbers have different decimal texts |
| Validation.SplitAtSpace | server/src/validation/libConfigValidation.ts:24 | a text joined to a space-free prefix by a space splits back uniquely |
| Validation.SignatureInjective | server/src/validation/libConfigValidation.ts:24 | two problems have the same signature iff they start at the same line and character and have the same message |
| Validation.SignaturesSnoc | server/src/validation/libConfigValidation.ts:25-28 | appending a problem adds exactly its signature |
| Validation.FirstIffNew | server/src/validation/libConfigValidation.ts:25-28 | a problem is the first of its signature iff its signature was not seen before it |
| Validation.RemoveDuplicates | server/src/validation/libConfigValidation.ts:22-36 | the loop with the `added` map returns KeepFirst of the problems |
| Validation.DoValidation | server/out/validation/libConfigValidation.js:8-27 | doValidation returns KeepFirst of the parser's problems as diagnostics |
| Validation.KeepFirstSubsequence | server/src/validation/libConfigValidation.ts:30-36 | the diagnostics keep their order and are a selection of the problems |
| Validation.KeepFirstSignatures | server/src/validation/libConfigValidation.ts:30-36 | the diagnostics have exactly the signatures of the problems |
| Validation.KeepFirstDistinct | server/src/validation/libConfigValidation.ts:22-36 | no two diagnostics share a signature |
| Validation.FirstKept | server/src/validation/libConfigValidation.ts:25-28 | the first problem with a signature is kept |
| Validation.KeptUniquePerStart | server/src/validation/libConfigValidation.ts:22-36 | no two diagnostics share start and message, and every problem's start and message appears among them |
| Validation.ValidationReport | server/out/validation/libConfigValidation.js:8-27 | doValidation's diagnostics are an ordered selection of the parser's problems. Each start-and-message pair appears exactly once |
| Sequences.SubsequenceRefl | server/src/validation/libConfigValidation.ts:30-36 | every sequence is a selection of itself |
| Sequences.SubsequenceExtend | server/out/folding/libConfigFolding.js:122-131 | a selection stays one when the source grows |
| Sequences.SubsequenceSnoc | server/src/validation/libConfigValidation.ts:25-28 | keeping an appended element keeps a selection |

## Left out

- I/O and the language-server plumbing. `TextDocument.positionAt`, `offsetAt` and `lineCount` are parameters: a position function for validation, and an abstract line map for folding whose consistency is the predicate `FoldingSpec.LinesOk`. `Promise.resolve`, `console.error`, `localize` and `toString` are not modelled. Messages are the English default texts.
- Number values: the scanner keeps the text of a number, and numeric values are not computed. `NumberLibConfigNodeImpl.isInteger` depends on floating-point formatting and is not modelled.
- Parent references of nodes are not modelled. Nothing in the core reads them except `toString`.
- The formatter's range variables (`rangeStart`, `rangeEnd`, `formatTextStart`, `initialIndentLevel`) are constants in the source. They are fixed at 0, the text length, 0 and 0.
- `FormatHelpers.TabSize`: a tab size that is not an integer is not modelled. An absent or zero `tabSize` becomes 4, as `|| 4` does. A non-string `eol` option is modelled as an empty one.
- Folding: `onRangeLimitExceeded` is modelled as a flag saying whether the client asked to be told, and `FoldResult.limitReported` records whether it was called. A `rangeLimit` that is NaN or non-integer is not modelled. A negative limit yields no ranges, as in the source.
- Scanner.Scanner.SetPosition: requires a non-negative position; the source's callers only pass offsets taken from the document.
- Validation positions are natural numbers. The signature is built from them in decimal. Because a signature starts with a digit, it never collides with the prototype keys of the `added` object, so `added` is modelled as a map.
- The compiled scanner and parser differ from the TypeScript only in the property-name start class (`-` is allowed in TypeScript only). One model covers both, selected by `Chars.Revision`.
- Behaviour of the source that is modelled as written and not corrected:
  - the node constructors ignore the callbacks they are given;
  - booleans are parsed as kind Number, so `[true, 1]` reports no mismatch;
  - `_parseList` keeps a stale comma flag. After a missing comma it reports CommaExpected, skips past the next `)` or `,`, and repeats that until it stands on a `)` read right after a `)` or `,`, or at EOF (ParserDiagnostics.ListAfterMissingComma). So it goes past the list's own `)`: on `x = (1 2); y = 3;` it reports at `2` and at `;`, swallows `y = 3;` up to EOF, and `_parseTerminator` then reports SemicolonExpected at the final `;`, since the empty EOF token's range steps back to the last non-space character;
  - an unterminated block comment can end one past the text;
  - a `#region` line comment must start with `//`, while any `endregion` ends a region.

## Findings

| source | as written | input that shows it | evidently intended | confidence | as-written member | corrected member |
|---|---|---|---|---|---|---|
| server/src/parser/libConfigParser.ts:172-197 | after a missing comma, `_error` stops before the next `,` but `nextToken` is not updated, so every later pass reports again at the same comma and never advances: `_parseArray` does not terminate | `x = [1 2, 3];` | after the recovery, the loop tests the current token and goes on to the next element | not executed | ParserProperties.ArrayLoopAsWrittenNeverLeaves | ParserSpec.ArrayLoopP |
