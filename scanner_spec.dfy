/** The scanner's behaviour as pure functions: one step of `scanNext` (and of the trivia-skipping
    `scanNextNonTrivia`) as a function of the scanner's state. The imperative scanner in module
    Scanner is proved to compute exactly these functions. */
module ScannerSpec {
  import opened Kinds
  import opened Chars

  /** The scanner's closure state. `lineStartOffset` holds the line number at which the last token
      started (the source's name is kept); `tokenLineStartOffset` is the offset just after the
      last line break scanned. */
  datatype ScannerState = ScannerState(
    pos: int,
    value: seq<int>,
    tokenOffset: int,
    token: SyntaxKind,
    lineNumber: int,
    lineStartOffset: int,
    tokenLineStartOffset: int,
    prevTokenLineStartOffset: int,
    scanError: ScanError)

  function InitialState(): ScannerState {
    ScannerState(0, [], 0, Unknown, 0, 0, 0, 0, ScanError.None)
  }

  // ---------------------------------------------------------------------------------------
  // Runs of characters

  /** The character classes whose maximal runs the scanner consumes in a loop. */
  datatype CharClass =
    | WhiteSpaceClass
    | DigitClass
    | NameClass(rev: Revision)
    | NonLineBreakClass
    | UnknownContentClass
    | HexDigitClass

  predicate InClass(cls: CharClass, ch: int) {
    match cls
    case WhiteSpaceClass => IsWhiteSpace(ch)
    case DigitClass => IsDigit(ch)
    case NameClass(rev) => IsValidPropertyCharacter(rev, ch)
    case NonLineBreakClass => !IsLineBreak(ch)
    case UnknownContentClass => IsUnknownContentCharacter(ch)
    case HexDigitClass => HexDigitValue(ch) >= 0
  }

  /** The end of the maximal run of class `cls` that starts at `p`. */
  function RunEnd(text: seq<int>, p: int, cls: CharClass): (e: int)
    requires 0 <= p <= |text|
    ensures p <= e <= |text|
    ensures forall k :: p <= k < e ==> InClass(cls, text[k])
    ensures e == |text| || !InClass(cls, text[e])
    decreases |text| - p
  {
    if p < |text| && InClass(cls, text[p]) then RunEnd(text, p + 1, cls) else p
  }

  // ---------------------------------------------------------------------------------------
  // Hexadecimal digits (scanHexDigits)

  /** The value of the code units text[i..j] read as hexadecimal digits, most significant first. */
  function HexValue(text: seq<int>, i: int, j: int): int
    requires 0 <= i <= j <= |text|
    decreases j - i
  {
    if i == j then 0 else HexValue(text, i, j - 1) * 16 + HexDigitValue(text[j - 1])
  }

  function Pow16(n: nat): (p: nat)
    ensures p >= 1
  {
    if n == 0 then 1 else 16 * Pow16(n - 1)
  }

  /** n hexadecimal digits denote a number below 16^n. */
  lemma {:induction false} HexValueBounds(text: seq<int>, i: int, j: int)
    requires 0 <= i <= j <= |text|
    requires forall k :: i <= k < j ==> HexDigitValue(text[k]) >= 0
    ensures 0 <= HexValue(text, i, j) < Pow16(j - i)
  {
    if i < j {
      HexValueBounds(text, i, j - 1);
    }
  }

  datatype HexScan = HexScan(end: int, value: int)

  /** scanHexDigits(count, exact) from position `q`: the position after the digits consumed, and
      their value, or -1 when fewer than `count` digits were found. */
  function ScanHexDigitsSpec(text: seq<int>, q: int, count: nat, exact: bool): (r: HexScan)
    requires 0 <= q <= |text|
    ensures q <= r.end <= |text|
  {
    var run := RunEnd(text, q, HexDigitClass) - q;
    var n := if exact && run > count then count else run;
    HexScan(q + n, if n < count then -1 else HexValue(text, q, q + n))
  }

  /** scanHexDigits consumes only hexadecimal digits, at most `count` when exact, and stops early
      only at a code that is not one; its value is -1 exactly when it found fewer than `count`,
      and otherwise the number the digits denote. */
  lemma ScanHexDigitsFacts(text: seq<int>, q: int, count: nat, exact: bool)
    requires 0 <= q <= |text|
    ensures var r := ScanHexDigitsSpec(text, q, count, exact);
      (forall k :: q <= k < r.end ==> HexDigitValue(text[k]) >= 0) &&
      (exact ==> r.end <= q + count) &&
      (r.value == -1 <==> r.end - q < count) &&
      (r.value != -1 ==> 0 <= r.value < Pow16(r.end - q)) &&
      (r.end - q < count || !exact ==> HexDigitValue(CharAt(text, r.end)) < 0)
  {
    var r := ScanHexDigitsSpec(text, q, count, exact);
    HexValueBounds(text, q, r.end);
  }

  // ---------------------------------------------------------------------------------------
  // Numbers (scanNumber)

  datatype NumberScan = NumberScan(end: int, valueEnd: int, error: ScanError)

  /** The integer part and optional fraction of a number: where they end, and whether a `.` was
      left without a digit after it. */
  datatype Mantissa = Mantissa(end: int, danglingDot: bool)

  /** The part of scanNumber before the exponent, from the first digit at `start`: a leading `0`
      stands alone, other digits run on; a `.` must be followed by at least one digit. */
  function MantissaSpec(text: seq<int>, start: int): (m: Mantissa)
    requires 0 <= start < |text| && IsDigit(text[start])
    ensures start < m.end <= |text|
  {
    var intEnd := if text[start] == Digit0 then start + 1 else RunEnd(text, start + 1, DigitClass);
    if CharAt(text, intEnd) == Dot then
      if IsDigit(CharAt(text, intEnd + 1)) then Mantissa(RunEnd(text, intEnd + 2, DigitClass), false)
      else Mantissa(intEnd + 1, true)
    else Mantissa(intEnd, false)
  }

  /** scanNumber from the first digit at `start`: where scanning stops, where the returned text
      ends, and the error. */
  function NumberScanSpec(text: seq<int>, start: int): (r: NumberScan)
    requires 0 <= start < |text| && IsDigit(text[start])
    ensures start < r.valueEnd <= r.end <= |text|
    ensures r.error == ScanError.None || r.error == ScanError.UnexpectedEndOfNumber
  {
    var m := MantissaSpec(text, start);
    if m.danglingDot then NumberScan(m.end, m.end, ScanError.UnexpectedEndOfNumber)
    else ExponentScan(text, m.end)
  }

  /** The optional exponent after the mantissa that ends at `mantissaEnd`. */
  function ExponentScan(text: seq<int>, mantissaEnd: int): (r: NumberScan)
    requires 0 <= mantissaEnd <= |text|
    ensures mantissaEnd <= r.valueEnd <= r.end <= |text|
    ensures r.error == ScanError.None || r.error == ScanError.UnexpectedEndOfNumber
  {
    var ch := CharAt(text, mantissaEnd);
    if ch == UpperE || ch == LowerE then
      var sign := CharAt(text, mantissaEnd + 1);
      var digitsStart := if sign == Plus || sign == Minus then mantissaEnd + 2 else mantissaEnd + 1;
      if IsDigit(CharAt(text, digitsStart)) then
        var e := RunEnd(text, digitsStart + 1, DigitClass);
        NumberScan(e, e, ScanError.None)
      else
        NumberScan(digitsStart, mantissaEnd, ScanError.UnexpectedEndOfNumber)
    else
      NumberScan(mantissaEnd, mantissaEnd, ScanError.None)
  }

  // ---------------------------------------------------------------------------------------
  // Strings (scanString)

  datatype StringScan = StringScan(end: int, value: seq<int>, error: ScanError)

  /** The error left in the scanner after an earlier error and a later one: the later wins. */
  function LastError(earlier: ScanError, later: ScanError): ScanError {
    if later == ScanError.None then earlier else later
  }

  lemma LastErrorAssociative(a: ScanError, b: ScanError, c: ScanError)
    ensures LastError(a, LastError(b, c)) == LastError(LastError(a, b), c)
  {
  }

  /** The escape letters that stand for one character, and that character. */
  predicate IsSimpleEscape(ch: int) {
    ch == DoubleQuote || ch == Backslash || ch == Slash || ch == LowerB ||
    ch == LowerF || ch == LowerN || ch == LowerR || ch == LowerT
  }

  function SimpleEscapeValue(ch: int): int
    requires IsSimpleEscape(ch)
  {
    if ch == LowerB then 8
    else if ch == LowerF then FormFeed
    else if ch == LowerN then LineFeed
    else if ch == LowerR then CarriageReturn
    else if ch == LowerT then Tab
    else ch
  }

  datatype EscapeScan = EscapeScan(end: int, decoded: seq<int>, error: ScanError)

  /** The escape sequence whose letter is at `q` (just after a backslash): where it ends, the
      characters it stands for and its error. A `\u` not followed by four hexadecimal digits
      stands for nothing, and the digits it did consume are dropped. */
  function EscapeSpec(text: seq<int>, q: int): (r: EscapeScan)
    requires 0 <= q < |text|
    ensures q < r.end <= |text|
    ensures |r.decoded| <= 1 && (r.decoded == [] <==> r.error != ScanError.None)
  {
    var esc := text[q];
    if IsSimpleEscape(esc) then EscapeScan(q + 1, [SimpleEscapeValue(esc)], ScanError.None)
    else if esc == LowerU then
      var hex := ScanHexDigitsSpec(text, q + 1, 4, true);
      if hex.value >= 0 then EscapeScan(hex.end, [hex.value], ScanError.None)
      else EscapeScan(hex.end, [], ScanError.InvalidUnicode)
    else EscapeScan(q + 1, [], ScanError.InvalidEscapeCharacter)
  }

  /** A character that a string literal holds as it is: not the closing quote, not a backslash,
      and not a line feed or carriage return. */
  predicate IsPlainStringCharacter(ch: int) {
    ch != DoubleQuote && ch != Backslash && !(0 <= ch <= 0x1f && IsLineBreak(ch))
  }

  /** What one pass of scanString's loop does at `q`: stop at `end`, or go on from `next`
      having decoded `decoded`; `error` is the error the pass raised (None if it raised none). */
  datatype StringStep =
    | Stop(end: int, error: ScanError)
    | Continue(next: int, decoded: seq<int>, error: ScanError)

  function StringStepAt(text: seq<int>, q: int): (r: StringStep)
    requires 0 <= q <= |text|
    ensures r.Stop? ==> q <= r.end <= |text|
    ensures r.Continue? ==> q < r.next <= |text|
  {
    if q >= |text| then Stop(q, ScanError.UnexpectedEndOfString)
    else
      var ch := text[q];
      if ch == DoubleQuote then Stop(q + 1, ScanError.None)
      else if ch == Backslash then
        if q + 1 >= |text| then Stop(q + 1, ScanError.UnexpectedEndOfString)
        else
          var e := EscapeSpec(text, q + 1);
          Continue(e.end, e.decoded, e.error)
      else if !IsPlainStringCharacter(ch) then Stop(q, ScanError.UnexpectedEndOfString)
      else Continue(q + 1, [ch], if 0 <= ch <= 0x1f then ScanError.InvalidCharacter else ScanError.None)
  }

  /** scanString from position `q` inside a string literal: where it stops, the decoded text and
      the last error raised. */
  function StringScanSpec(text: seq<int>, q: int): (r: StringScan)
    requires 0 <= q <= |text|
    ensures q <= r.end <= |text|
    decreases |text| - q
  {
    match StringStepAt(text, q)
    case Stop(end, error) => StringScan(end, [], error)
    case Continue(next, decoded, error) =>
      var rest := StringScanSpec(text, next);
      StringScan(rest.end, decoded + rest.value, LastError(error, rest.error))
  }

  /** The invariant of scanString's loop, begun at `q0`: the characters decoded so far (`done`,
      then the plain characters text[start..q] not yet copied), followed by what the rest of the
      literal decodes to, make the whole literal; and the error so far followed by the rest's
      errors leaves the same last error. */
  predicate StringLoopInvariant(text: seq<int>, q0: int, start: int, q: int, done: seq<int>,
                                err: ScanError, err0: ScanError) {
    0 <= q0 <= start <= q <= |text| &&
    var whole := StringScanSpec(text, q0);
    var rest := StringScanSpec(text, q);
    rest.end == whole.end && done + text[start..q] + rest.value == whole.value &&
    LastError(err, rest.error) == LastError(err0, whole.error)
  }

  lemma StringLoopEntry(text: seq<int>, q0: int, err0: ScanError)
    requires 0 <= q0 <= |text|
    ensures StringLoopInvariant(text, q0, q0, q0, [], err0, err0)
  {
    assert [] + text[q0..q0] + StringScanSpec(text, q0).value == StringScanSpec(text, q0).value;
  }

  /** A plain character joins the pending slice; a control character raises InvalidCharacter. */
  lemma StringLoopPlain(text: seq<int>, q0: int, start: int, q: int, done: seq<int>,
                        err: ScanError, err0: ScanError)
    requires StringLoopInvariant(text, q0, start, q, done, err, err0)
    requires q < |text| && IsPlainStringCharacter(text[q])
    ensures StringLoopInvariant(text, q0, start, q + 1, done,
                                if 0 <= text[q] <= 0x1f then ScanError.InvalidCharacter else err, err0)
  {
    var rest := StringScanSpec(text, q + 1);
    var e := if 0 <= text[q] <= 0x1f then ScanError.InvalidCharacter else ScanError.None;
    assert StringStepAt(text, q) == Continue(q + 1, [text[q]], e);
    assert StringScanSpec(text, q) == StringScan(rest.end, [text[q]] + rest.value, LastError(e, rest.error));
    assert text[start..q + 1] == text[start..q] + [text[q]];
    LastErrorAssociative(err, e, rest.error);
  }

  /** An escape sequence flushes the pending slice and appends what it decodes to. */
  lemma StringLoopEscape(text: seq<int>, q0: int, start: int, q: int, done: seq<int>,
                         err: ScanError, err0: ScanError)
    requires StringLoopInvariant(text, q0, start, q, done, err, err0)
    requires q + 1 < |text| && text[q] == Backslash
    ensures var e := EscapeSpec(text, q + 1);
      StringLoopInvariant(text, q0, e.end, e.end, done + text[start..q] + e.decoded,
                          LastError(err, e.error), err0)
  {
    var e := EscapeSpec(text, q + 1);
    var rest := StringScanSpec(text, e.end);
    assert StringStepAt(text, q) == Continue(e.end, e.decoded, e.error);
    assert StringScanSpec(text, q) == StringScan(rest.end, e.decoded + rest.value, LastError(e.error, rest.error));
    assert text[e.end..e.end] == [];
    LastErrorAssociative(err, e.error, rest.error);
  }

  /** Where a pass stops, the copied text is the whole decoded literal. */
  lemma StringLoopExit(text: seq<int>, q0: int, start: int, q: int, done: seq<int>,
                       err: ScanError, err0: ScanError)
    requires StringLoopInvariant(text, q0, start, q, done, err, err0)
    requires StringStepAt(text, q).Stop?
    ensures var step := StringStepAt(text, q);
      var whole := StringScanSpec(text, q0);
      whole.end == step.end && whole.value == done + text[start..q] &&
      LastError(err0, whole.error) == LastError(err, step.error)
  {
    var step := StringStepAt(text, q);
    assert StringScanSpec(text, q) == StringScan(step.end, [], step.error);
    assert done + text[start..q] + [] == done + text[start..q];
  }

  // ---------------------------------------------------------------------------------------
  // Block comments

  datatype BlockScan = BlockScan(loopEnd: int, closed: bool, breaks: nat, lastLineStart: int)

  /** The loop of a block comment from position `q` (after the opening `/*`): it looks for `*/`
      while at least two characters remain, counting the line breaks it passes and remembering
      where the last one ends. */
  function BlockCommentSpec(text: seq<int>, q: int): (r: BlockScan)
    requires 0 <= q <= |text|
    ensures q <= r.loopEnd <= |text|
    ensures r.closed ==> q + 2 <= r.loopEnd && text[r.loopEnd - 2] == Asterisk && text[r.loopEnd - 1] == Slash
    ensures !r.closed ==> |text| - 1 <= r.loopEnd || r.loopEnd == q
    ensures !r.closed && q < |text| - 1 ==> |text| - 1 <= r.loopEnd
    ensures r.breaks > 0 ==> q < r.lastLineStart <= r.loopEnd
    decreases |text| - q
  {
    if q < |text| - 1 then
      if text[q] == Asterisk && text[q + 1] == Slash then BlockScan(q + 2, true, 0, -1)
      else
        var next := if text[q] == CarriageReturn && text[q + 1] == LineFeed then q + 2 else q + 1;
        var rest := BlockCommentSpec(text, next);
        if IsLineBreak(text[q]) then
          rest.(breaks := rest.breaks + 1, lastLineStart := if rest.breaks > 0 then rest.lastLineStart else next)
        else rest
    else BlockScan(q, false, 0, -1)
  }

  /** The line count and last line start a block comment leaves, from those before it. */
  function BlockLines(b: BlockScan, lines: int, lineStart: int): (int, int) {
    (lines + b.breaks, if b.breaks > 0 then b.lastLineStart else lineStart)
  }

  /** The invariant of the block-comment loop begun at `q0`: what the loop does from `q` on,
      applied to the current line count and line start, gives what it does from `q0` on applied
      to those it started with. */
  predicate BlockLoopInvariant(text: seq<int>, q0: int, q: int, lines: int, lineStart: int,
                               lines0: int, lineStart0: int) {
    0 <= q0 <= q <= |text| &&
    var whole := BlockCommentSpec(text, q0);
    var rest := BlockCommentSpec(text, q);
    rest.loopEnd == whole.loopEnd && rest.closed == whole.closed &&
    BlockLines(rest, lines, lineStart) == BlockLines(whole, lines0, lineStart0)
  }

  /** One character of a block comment that does not close it: a line break (CR LF as one) counts
      a line. */
  lemma BlockLoopStep(text: seq<int>, q0: int, q: int, next: int, lines: int, lineStart: int,
                      lines0: int, lineStart0: int)
    requires BlockLoopInvariant(text, q0, q, lines, lineStart, lines0, lineStart0)
    requires q < |text| - 1 && !(text[q] == Asterisk && text[q + 1] == Slash)
    requires next == if text[q] == CarriageReturn && text[q + 1] == LineFeed then q + 2 else q + 1
    ensures IsLineBreak(text[q]) ==> BlockLoopInvariant(text, q0, next, lines + 1, next, lines0, lineStart0)
    ensures !IsLineBreak(text[q]) ==> BlockLoopInvariant(text, q0, next, lines, lineStart, lines0, lineStart0)
  {
  }

  lemma BlockLoopExit(text: seq<int>, q0: int, q: int, lines: int, lineStart: int,
                      lines0: int, lineStart0: int)
    requires BlockLoopInvariant(text, q0, q, lines, lineStart, lines0, lineStart0)
    requires q >= |text| - 1 || (text[q] == Asterisk && text[q + 1] == Slash)
    ensures var whole := BlockCommentSpec(text, q0);
      whole.closed == (q < |text| - 1) && whole.loopEnd == (if whole.closed then q + 2 else q) &&
      BlockLines(whole, lines0, lineStart0) == (lines, lineStart)
  {
  }

  // ---------------------------------------------------------------------------------------
  // One token

  predicate IsPunctuation(ch: int) {
    ch == OpenBrace || ch == CloseBrace || ch == OpenParen || ch == CloseParen ||
    ch == OpenBracket || ch == CloseBracket || ch == Colon || ch == Comma ||
    ch == EqualsSign || ch == Semicolon
  }

  function PunctuationKind(ch: int): SyntaxKind
    requires IsPunctuation(ch)
  {
    if ch == OpenBrace then OpenBraceToken
    else if ch == CloseBrace then CloseBraceToken
    else if ch == OpenParen then OpenParenToken
    else if ch == CloseParen then CloseParenToken
    else if ch == OpenBracket then OpenBracketToken
    else if ch == CloseBracket then CloseBracketToken
    else if ch == Colon then ColonToken
    else if ch == Comma then CommaToken
    else if ch == EqualsSign then EqualToken
    else SemicolonToken
  }

  /** The keyword a word reads as, if any. */
  function KeywordOr(word: seq<int>, otherwise: SyntaxKind): SyntaxKind {
    if word == TrueText then TrueKeyword
    else if word == FalseText then FalseKeyword
    else otherwise
  }

  /** The fields scanNext resets before it classifies the next token. */
  function TokenStart(s: ScannerState): ScannerState {
    s.(value := [], scanError := ScanError.None, tokenOffset := s.pos,
       lineStartOffset := s.lineNumber, prevTokenLineStartOffset := s.tokenLineStartOffset)
  }

  /** The conditions every token found inside the text satisfies. */
  predicate TokenInText(text: seq<int>, t: ScannerState, r: ScannerState) {
    0 <= t.pos && r.tokenOffset == t.pos && t.pos < r.pos &&
    (r.pos <= |text| || (r.pos == |text| + 1 && r.token == BlockCommentTrivia &&
                         r.scanError == ScanError.UnexpectedEndOfComment)) &&
    r.token != EOF && r.lineStartOffset == t.lineStartOffset &&
    r.prevTokenLineStartOffset == t.prevTokenLineStartOffset &&
    r.lineNumber >= t.lineNumber &&
    (r.token != LineBreakTrivia && r.token != BlockCommentTrivia ==>
       r.lineNumber == t.lineNumber && r.tokenLineStartOffset == t.tokenLineStartOffset) &&
    (r.token == Trivia ==> r.pos <= |text| && forall k :: t.pos <= k < r.pos ==> IsWhiteSpace(text[k])) &&
    (r.token == LineBreakTrivia ==>
       r.pos <= |text| && r.lineNumber == t.lineNumber + 1 &&
       forall k :: t.pos <= k < r.pos ==> IsLineBreak(text[k]))
  }

  /** A run of whitespace: one Trivia token. */
  function WhitespaceToken(text: seq<int>, t: ScannerState): (r: ScannerState)
    requires 0 <= t.pos < |text| && IsWhiteSpace(text[t.pos]) && t.tokenOffset == t.pos
  {
    var e := RunEnd(text, t.pos, WhiteSpaceClass);
    t.(pos := e, value := text[t.pos..e], token := Trivia)
  }

  /** A line break, CR LF counting as one: it ends a line. */
  function LineBreakToken(text: seq<int>, t: ScannerState): (r: ScannerState)
    requires 0 <= t.pos < |text| && IsLineBreak(text[t.pos]) && t.tokenOffset == t.pos
  {
    var p := t.pos;
    var e := if text[p] == CarriageReturn && CharAt(text, p + 1) == LineFeed then p + 2 else p + 1;
    t.(pos := e, value := text[p..e], lineNumber := t.lineNumber + 1, tokenLineStartOffset := e,
       token := LineBreakTrivia)
  }

  /** A `//` or `#` comment up to the line break; its value starts one character early. */
  function LineCommentToken(text: seq<int>, t: ScannerState): (r: ScannerState)
    requires 0 <= t.pos < |text| && t.tokenOffset == t.pos
    requires text[t.pos] == Hash || (text[t.pos] == Slash && CharAt(text, t.pos + 1) == Slash)
  {
    var p := t.pos;
    var e := RunEnd(text, if text[p] == Hash then p + 1 else p + 2, NonLineBreakClass);
    t.(pos := e, value := Substring(text, p - 1, e), token := LineCommentTrivia)
  }

  /** A block comment; an unterminated one ends one position past where its loop stopped. */
  function BlockCommentToken(text: seq<int>, t: ScannerState): (r: ScannerState)
    requires 0 <= t.pos && t.pos + 1 < |text| && t.tokenOffset == t.pos
    requires text[t.pos] == Slash && text[t.pos + 1] == Asterisk
  {
    var p := t.pos;
    var b := BlockCommentSpec(text, p + 2);
    var e := if b.closed then b.loopEnd else b.loopEnd + 1;
    var lines := BlockLines(b, t.lineNumber, t.tokenLineStartOffset);
    t.(pos := e, value := Substring(text, p - 1, e), token := BlockCommentTrivia,
       lineNumber := lines.0, tokenLineStartOffset := lines.1,
       scanError := if b.closed then t.scanError else ScanError.UnexpectedEndOfComment)
  }

  /** A numeric literal, or a lone `-`, starting at t.pos. */
  function NumberToken(text: seq<int>, t: ScannerState): (r: ScannerState)
    requires 0 <= t.pos < |text| && (text[t.pos] == Minus || IsDigit(text[t.pos]))
    requires t.tokenOffset == t.pos
  {
    var p := t.pos;
    if text[p] == Minus then
      if !IsDigit(CharAt(text, p + 1)) then t.(pos := p + 1, value := [Minus], token := Unknown)
      else
        var n := NumberScanSpec(text, p + 1);
        t.(pos := n.end, value := [Minus] + text[p + 1..n.valueEnd], scanError := n.error, token := NumericLiteral)
    else
      var n := NumberScanSpec(text, p);
      t.(pos := n.end, value := text[p..n.valueEnd], scanError := n.error, token := NumericLiteral)
  }

  /** A property name or keyword, or a run of unknown content, starting at t.pos. */
  function WordToken(rev: Revision, text: seq<int>, t: ScannerState): (r: ScannerState)
    requires 0 <= t.pos < |text|
    requires t.tokenOffset == t.pos
  {
    var p := t.pos;
    var code := text[p];
    if IsValidPropertyCharacterStart(rev, code) then
      var e := RunEnd(text, p + 1, NameClass(rev));
      t.(pos := e, value := text[p..e], token := KeywordOr(text[p..e], PropertyName))
    else
      var e := RunEnd(text, p, UnknownContentClass);
      if e != p then t.(pos := e, value := text[p..e], token := KeywordOr(text[p..e], Unknown))
      else t.(pos := p + 1, value := [code], token := Unknown)
  }

  /** The token at t.pos < |text|, after the fields of `t` have been reset by TokenStart. */
  function LexAt(rev: Revision, text: seq<int>, t: ScannerState): (r: ScannerState)
    requires 0 <= t.pos < |text|
    requires t.tokenOffset == t.pos
  {
    var p := t.pos;
    var code := text[p];
    if IsWhiteSpace(code) then WhitespaceToken(text, t)
    else if IsLineBreak(code) then LineBreakToken(text, t)
    else if IsPunctuation(code) then t.(pos := p + 1, token := PunctuationKind(code))
    else if code == DoubleQuote then
      var s := StringScanSpec(text, p + 1);
      t.(pos := s.end, value := s.value, scanError := LastError(t.scanError, s.error), token := StringLiteral)
    else if code == Hash || (code == Slash && CharAt(text, p + 1) == Slash) then LineCommentToken(text, t)
    else if code == Slash && CharAt(text, p + 1) == Asterisk then BlockCommentToken(text, t)
    else if code == Slash then t.(pos := p + 1, value := t.value + [Slash], token := Unknown)
    else if code == Minus || IsDigit(code) then NumberToken(text, t)
    else WordToken(rev, text, t)
  }

  /** setPosition: the scanner moves to `newPosition` and forgets its current token, but not
      its line count. */
  function SetPositionSpec(s: ScannerState, newPosition: int): ScannerState {
    s.(pos := newPosition, value := [], tokenOffset := 0, token := Unknown, scanError := ScanError.None)
  }

  /** One call of scanNext. */
  function ScanNextSpec(rev: Revision, text: seq<int>, s: ScannerState): (r: ScannerState)
    requires 0 <= s.pos
  {
    var t := TokenStart(s);
    if s.pos >= |text| then t.(tokenOffset := |text|, token := EOF)
    else LexAt(rev, text, t)
  }

  /** One call of scanNextNonTrivia: scanNext repeated while it returns a trivia kind. */
  function ScanNonTriviaSpec(rev: Revision, text: seq<int>, s: ScannerState): (r: ScannerState)
    requires 0 <= s.pos
    ensures !IsTrivia(r.token)
    decreases |text| - s.pos
  {
    var n := ScanNextSpec(rev, text, s);
    if IsTrivia(n.token) then
      ScanNextInText(rev, text, s);
      ScanNonTriviaSpec(rev, text, n)
    else n
  }

  /** At or past the end of the text, scanNext yields EOF and stays where it is. */
  lemma ScanNextAtEnd(rev: Revision, text: seq<int>, s: ScannerState)
    requires |text| <= s.pos
    ensures ScanNextSpec(rev, text, s) == TokenStart(s).(tokenOffset := |text|, token := EOF)
  {
  }

  /** The invariant of scanNextNonTrivia's loop, begun in state `s0`, at state `s`: while `s`
      holds a trivia token, what is left to do gives the same result as the whole call. */
  predicate NonTriviaInvariant(rev: Revision, text: seq<int>, s0: ScannerState, s: ScannerState) {
    0 <= s0.pos && 0 <= s.pos && (IsTrivia(s.token) ==> s.pos <= |text| + 1) &&
    ScanNonTriviaSpec(rev, text, s0) == (if IsTrivia(s.token) then ScanNonTriviaSpec(rev, text, s) else s)
  }

  /** What decreases with each pass of scanNextNonTrivia's loop. */
  function NonTriviaMeasure(text: seq<int>, s: ScannerState): int {
    2 * (|text| + 2 - s.pos) + (if IsTrivia(s.token) then 1 else 0)
  }

  lemma NonTriviaMeasureDecreases(text: seq<int>, s: ScannerState, n: ScannerState)
    requires IsTrivia(s.token) && s.pos <= |text| + 1
    requires (s.pos < n.pos <= |text| + 1) || (n.pos == s.pos && n.token == EOF)
    ensures 0 <= NonTriviaMeasure(text, n) < NonTriviaMeasure(text, s)
  {
  }

  lemma NonTriviaEntry(rev: Revision, text: seq<int>, s0: ScannerState)
    requires 0 <= s0.pos
    ensures NonTriviaInvariant(rev, text, s0, ScanNextSpec(rev, text, s0))
  {
    if s0.pos < |text| {
      ScanNextInText(rev, text, s0);
    }
  }

  lemma NonTriviaStep(rev: Revision, text: seq<int>, s0: ScannerState, s: ScannerState)
    requires NonTriviaInvariant(rev, text, s0, s) && IsTrivia(s.token)
    ensures var n := ScanNextSpec(rev, text, s);
      NonTriviaInvariant(rev, text, s0, n) &&
      0 <= NonTriviaMeasure(text, n) < NonTriviaMeasure(text, s)
  {
    var n := ScanNextSpec(rev, text, s);
    if s.pos < |text| {
      ScanNextInText(rev, text, s);
      NonTriviaMeasureDecreases(text, s, n);
    } else {
      ScanNextAtEnd(rev, text, s);
      NonTriviaMeasureDecreases(text, s, n);
    }
  }

  // ---------------------------------------------------------------------------------------
  // What every token satisfies

  lemma WhitespaceTokenInText(text: seq<int>, t: ScannerState)
    requires 0 <= t.pos < |text| && IsWhiteSpace(text[t.pos]) && t.tokenOffset == t.pos
    ensures TokenInText(text, t, WhitespaceToken(text, t))
  {
  }

  lemma LineBreakTokenInText(text: seq<int>, t: ScannerState)
    requires 0 <= t.pos < |text| && IsLineBreak(text[t.pos]) && t.tokenOffset == t.pos
    ensures TokenInText(text, t, LineBreakToken(text, t))
  {
  }

  lemma BlockCommentTokenInText(text: seq<int>, t: ScannerState)
    requires 0 <= t.pos && t.pos + 1 < |text| && t.tokenOffset == t.pos
    requires text[t.pos] == Slash && text[t.pos + 1] == Asterisk
    ensures TokenInText(text, t, BlockCommentToken(text, t))
  {
  }

  /** Every call of scanNext inside the text yields one non-empty token that starts where the last
      one ended and ends no further than one past the text (only an unterminated block comment
      goes past it); only line breaks and block comments move the line count, and a Trivia or
      LineBreakTrivia token spans only whitespace or only line-break characters. */
  lemma ScanNextInText(rev: Revision, text: seq<int>, s: ScannerState)
    requires 0 <= s.pos < |text|
    ensures TokenInText(text, TokenStart(s), ScanNextSpec(rev, text, s))
  {
    LexAtInText(rev, text, TokenStart(s));
  }

  lemma LineCommentTokenInText(text: seq<int>, t: ScannerState)
    requires 0 <= t.pos < |text| && t.tokenOffset == t.pos
    requires text[t.pos] == Hash || (text[t.pos] == Slash && CharAt(text, t.pos + 1) == Slash)
    ensures TokenInText(text, t, LineCommentToken(text, t))
  {
  }

  lemma NumberTokenInText(text: seq<int>, t: ScannerState)
    requires 0 <= t.pos < |text| && (text[t.pos] == Minus || IsDigit(text[t.pos]))
    requires t.tokenOffset == t.pos
    ensures TokenInText(text, t, NumberToken(text, t))
  {
  }

  lemma WordTokenInText(rev: Revision, text: seq<int>, t: ScannerState)
    requires 0 <= t.pos < |text| && t.tokenOffset == t.pos
    ensures TokenInText(text, t, WordToken(rev, text, t))
  {
  }

  /** The same, for each kind of token LexAt dispatches to. */
  lemma LexAtInText(rev: Revision, text: seq<int>, t: ScannerState)
    requires 0 <= t.pos < |text| && t.tokenOffset == t.pos
    ensures TokenInText(text, t, LexAt(rev, text, t))
  {
    var code := text[t.pos];
    var r := LexAt(rev, text, t);
    if IsWhiteSpace(code) {
      assert r == WhitespaceToken(text, t);
      WhitespaceTokenInText(text, t);
    } else if IsLineBreak(code) {
      assert r == LineBreakToken(text, t);
      LineBreakTokenInText(text, t);
    } else if IsPunctuation(code) || code == DoubleQuote {
      assert r.token != Trivia && r.token != LineBreakTrivia && r.token != BlockCommentTrivia;
    } else if code == Hash || (code == Slash && CharAt(text, t.pos + 1) == Slash) {
      assert r == LineCommentToken(text, t);
      LineCommentTokenInText(text, t);
    } else if code == Slash && CharAt(text, t.pos + 1) == Asterisk {
      assert r == BlockCommentToken(text, t);
      BlockCommentTokenInText(text, t);
    } else if code == Slash {
      assert r == t.(pos := t.pos + 1, value := t.value + [Slash], token := Unknown);
    } else if code == Minus || IsDigit(code) {
      assert r == NumberToken(text, t);
      NumberTokenInText(text, t);
    } else {
      assert r == WordToken(rev, text, t);
      WordTokenInText(rev, text, t);
    }
  }

  /** At or past the end of the text scanNext yields EOF, with the offset at the end, and
      otherwise never does. */
  lemma ScanNextEof(rev: Revision, text: seq<int>, s: ScannerState)
    requires 0 <= s.pos
    ensures var r := ScanNextSpec(rev, text, s);
      (r.token == EOF <==> s.pos >= |text|) &&
      (s.pos >= |text| ==> r.pos == s.pos && r.tokenOffset == |text|)
  {
    if s.pos < |text| {
      ScanNextInText(rev, text, s);
    }
  }
}
