/** The libconfig scanner: the closure returned by CreateDefaultScanner, as a class whose fields
    are the closure's variables. Every method is proved to compute the corresponding function of
    module ScannerSpec. */
module Scanner {
  import opened Kinds
  import opened Chars
  import opened ScannerSpec

  class Scanner {
    const text: seq<int>
    const rev: Revision
    const ignoreTrivia: bool

    var pos: int
    var value: seq<int>
    var tokenOffset: int
    var token: SyntaxKind
    var lineNumber: int
    var lineStartOffset: int
    var tokenLineStartOffset: int
    var prevTokenLineStartOffset: int
    var scanError: ScanError

    /** The closure's variables as one value. */
    function State(): ScannerState
      reads this
    {
      ScannerState(pos, value, tokenOffset, token, lineNumber, lineStartOffset,
                   tokenLineStartOffset, prevTokenLineStartOffset, scanError)
    }

    predicate Valid()
      reads this
    {
      0 <= pos
    }

    constructor (text: seq<int>, rev: Revision, ignoreTrivia: bool)
      ensures this.text == text && this.rev == rev && this.ignoreTrivia == ignoreTrivia
      ensures State() == InitialState()
      ensures Valid()
    {
      this.text := text;
      this.rev := rev;
      this.ignoreTrivia := ignoreTrivia;
      pos := 0;
      value := [];
      tokenOffset := 0;
      token := Unknown;
      lineNumber := 0;
      lineStartOffset := 0;
      tokenLineStartOffset := 0;
      prevTokenLineStartOffset := 0;
      scanError := ScanError.None;
    }

    /** scanHexDigits from `q`: hexadecimal digits, at most `count` of them when `exact`; the
        value is -1 when fewer than `count` were found. */
    method ScanHexDigits(q: int, count: nat, exact: bool) returns (end: int, v: int)
      requires 0 <= q <= |text|
      ensures ScanHexDigitsSpec(text, q, count, exact) == HexScan(end, v)
    {
      end := q;
      var digits := 0;
      v := 0;
      while digits < count || !exact
        invariant q <= end <= |text| && digits == end - q
        invariant v == HexValue(text, q, end)
        invariant RunEnd(text, end, HexDigitClass) == RunEnd(text, q, HexDigitClass)
        invariant exact ==> digits <= count
        decreases |text| - end
      {
        var ch := CharAt(text, end);
        assert ch == NaN || ch == text[end];
        if Digit0 <= ch <= Digit9 {
          v := v * 16 + ch - Digit0;
        } else if UpperA <= ch <= UpperF {
          v := v * 16 + ch - UpperA + 10;
        } else if LowerA <= ch <= LowerF {
          v := v * 16 + ch - LowerA + 10;
        } else {
          break;
        }
        end := end + 1;
        digits := digits + 1;
      }
      if digits < count {
        v := -1;
      }
    }

    /** setPosition: moves the scanner and forgets the current token, but not the line count. */
    method SetPosition(newPosition: int)
      requires 0 <= newPosition
      modifies this
      ensures State() == SetPositionSpec(old(State()), newPosition)
      ensures Valid()
    {
      pos := newPosition;
      value := [];
      tokenOffset := 0;
      token := Unknown;
      scanError := ScanError.None;
    }

    /** The end of the maximal run of `cls` from `q`. */
    method SkipRun(q: int, cls: CharClass) returns (end: int)
      requires 0 <= q <= |text|
      ensures end == RunEnd(text, q, cls)
    {
      end := q;
      while end < |text| && InClass(cls, text[end])
        invariant q <= end <= |text|
        invariant RunEnd(text, end, cls) == RunEnd(text, q, cls)
        decreases |text| - end
      {
        end := end + 1;
      }
    }

    /** scanNumber, from the first digit at `q`: where the number stops, its text and its error. */
    method ScanNumber(q: int) returns (end: int, v: seq<int>, error: ScanError)
      requires 0 <= q < |text| && IsDigit(text[q])
      ensures var n := NumberScanSpec(text, q);
        end == n.end && v == text[q..n.valueEnd] && error == n.error
    {
      var danglingDot;
      end, danglingDot := ScanMantissa(q);
      if danglingDot {
        return end, Substring(text, q, end), ScanError.UnexpectedEndOfNumber;
      }
      var valueEnd;
      end, valueEnd, error := ScanExponent(end);
      v := Substring(text, q, valueEnd);
    }

    /** The integer part and fraction of scanNumber; `danglingDot` when a `.` has no digit after it. */
    method ScanMantissa(q: int) returns (end: int, danglingDot: bool)
      requires 0 <= q < |text| && IsDigit(text[q])
      ensures MantissaSpec(text, q) == Mantissa(end, danglingDot)
    {
      end := q + 1;
      if CharAt(text, q) != Digit0 {
        end := SkipRun(end, DigitClass);
      }
      danglingDot := false;
      if end < |text| && CharAt(text, end) == Dot {
        end := end + 1;
        if end < |text| && IsDigit(CharAt(text, end)) {
          end := SkipRun(end + 1, DigitClass);
        } else {
          danglingDot := true;
        }
      }
    }

    /** The exponent part of scanNumber, from the end of the mantissa at `q`. */
    method ScanExponent(q: int) returns (end: int, valueEnd: int, error: ScanError)
      requires 0 <= q <= |text|
      ensures ExponentScan(text, q) == NumberScan(end, valueEnd, error)
    {
      end, valueEnd, error := q, q, ScanError.None;
      if end < |text| && (CharAt(text, end) == UpperE || CharAt(text, end) == LowerE) {
        end := end + 1;
        if (end < |text| && CharAt(text, end) == Plus) || CharAt(text, end) == Minus {
          end := end + 1;
        }
        if end < |text| && IsDigit(CharAt(text, end)) {
          end := SkipRun(end + 1, DigitClass);
          valueEnd := end;
        } else {
          error := ScanError.UnexpectedEndOfNumber;
        }
      }
    }

    /** The escape-sequence part of scanString: `q` is at the letter after a backslash. */
    method ScanEscape(q: int) returns (end: int, decoded: seq<int>, error: ScanError)
      requires 0 <= q < |text|
      ensures EscapeSpec(text, q) == EscapeScan(end, decoded, error)
    {
      var ch2 := CharAt(text, q);
      end, decoded, error := q + 1, [], ScanError.None;
      if IsSimpleEscape(ch2) {
        decoded := [SimpleEscapeValue(ch2)];
      } else if ch2 == LowerU {
        var ch3;
        end, ch3 := ScanHexDigits(q + 1, 4, true);
        if ch3 >= 0 {
          decoded := [ch3];
        } else {
          error := ScanError.InvalidUnicode;
        }
      } else {
        error := ScanError.InvalidEscapeCharacter;
      }
    }

    /** scanString, from just after the opening quote at `q`: where it stops, the decoded
        characters and the last error it raised. */
    method ScanString(q: int) returns (end: int, v: seq<int>, error: ScanError)
      requires 0 <= q <= |text|
      ensures StringScanSpec(text, q) == StringScan(end, v, error)
    {
      var result := [];
      var start := q;
      end, error := q, ScanError.None;
      StringLoopEntry(text, q, error);
      while true
        invariant StringLoopInvariant(text, q, start, end, result, error, ScanError.None)
        decreases |text| - end
      {
        if end >= |text| {
          StringLoopExit(text, q, start, end, result, error, ScanError.None);
          result := result + Substring(text, start, end);
          error := ScanError.UnexpectedEndOfString;
          break;
        }
        var ch := CharAt(text, end);
        if ch == DoubleQuote {
          StringLoopExit(text, q, start, end, result, error, ScanError.None);
          result := result + Substring(text, start, end);
          end := end + 1;
          break;
        }
        if ch == Backslash {
          if end + 1 >= |text| {
            StringLoopExit(text, q, start, end, result, error, ScanError.None);
            result := result + Substring(text, start, end);
            end := end + 1;
            error := ScanError.UnexpectedEndOfString;
            break;
          }
          StringLoopEscape(text, q, start, end, result, error, ScanError.None);
          result := result + Substring(text, start, end);
          var decoded, escapeError;
          end, decoded, escapeError := ScanEscape(end + 1);
          result := result + decoded;
          error := LastError(error, escapeError);
          start := end;
          continue;
        }
        if 0 <= ch <= 0x1f {
          if IsLineBreak(ch) {
            StringLoopExit(text, q, start, end, result, error, ScanError.None);
            result := result + Substring(text, start, end);
            error := ScanError.UnexpectedEndOfString;
            break;
          } else {
            StringLoopPlain(text, q, start, end, result, error, ScanError.None);
            error := ScanError.InvalidCharacter;
          }
        } else {
          StringLoopPlain(text, q, start, end, result, error, ScanError.None);
        }
        end := end + 1;
      }
      v := result;
    }

    /** scanPropertyName: the character before `q` and the name characters from `q` on. */
    method ScanPropertyName(q: int) returns (end: int, v: seq<int>)
      requires 1 <= q <= |text|
      ensures end == RunEnd(text, q, NameClass(rev)) && v == text[q - 1..end]
    {
      v := [text[q - 1]];
      end := q;
      while IsValidPropertyCharacter(rev, CharAt(text, end))
        invariant q <= end <= |text|
        invariant RunEnd(text, end, NameClass(rev)) == RunEnd(text, q, NameClass(rev))
        invariant v == text[q - 1..end]
        decreases |text| - end
      {
        v := v + [text[end]];
        end := end + 1;
      }
    }

    /** The loop of scanNext's whitespace case, from the whitespace character at `q`: where the
        run ends and its characters. */
    method ScanWhitespaceRun(q: int) returns (end: int, v: seq<int>)
      requires 0 <= q < |text| && IsWhiteSpace(text[q])
      ensures end == RunEnd(text, q, WhiteSpaceClass) && v == text[q..end]
    {
      var code := text[q];
      end, v := q, [];
      while true
        invariant q <= end < |text| && code == text[end] && IsWhiteSpace(code)
        invariant RunEnd(text, end, WhiteSpaceClass) == RunEnd(text, q, WhiteSpaceClass)
        invariant v == text[q..end]
        decreases |text| - end
      {
        end := end + 1;
        v := v + [code];
        code := CharAt(text, end);
        if !IsWhiteSpace(code) {
          break;
        }
      }
    }

    /** The whitespace case of scanNext: a run of whitespace is one Trivia token. */
    method ScanWhitespace()
      requires 0 <= pos < |text| && IsWhiteSpace(text[pos]) && tokenOffset == pos && value == []
      modifies this
      ensures State() == WhitespaceToken(text, old(State()))
    {
      var end, v := ScanWhitespaceRun(pos);
      pos, value, token := end, v, Trivia;
    }

    /** The line-break case of scanNext. */
    method ScanLineBreak()
      requires 0 <= pos < |text| && IsLineBreak(text[pos]) && tokenOffset == pos && value == []
      modifies this
      ensures State() == LineBreakToken(text, old(State()))
    {
      var code := text[pos];
      pos := pos + 1;
      value := value + [code];
      if code == CarriageReturn && CharAt(text, pos) == LineFeed {
        pos := pos + 1;
        value := value + [LineFeed];
      }
      lineNumber := lineNumber + 1;
      tokenLineStartOffset := pos;
      token := LineBreakTrivia;
    }

    /** A `//` or `#` comment, running up to the next line break. */
    method ScanLineComment()
      requires 0 <= pos < |text| && tokenOffset == pos
      requires text[pos] == Hash || (text[pos] == Slash && CharAt(text, pos + 1) == Slash)
      modifies this
      ensures State() == LineCommentToken(text, old(State()))
    {
      var start := pos - 1;
      var end := SkipRun(if text[pos] == Hash then pos + 1 else pos + 2, NonLineBreakClass);
      pos, value, token := end, Substring(text, start, end), LineCommentTrivia;
    }

    /** The loop of a block comment, from `q` just after its opening delimiter, with the line
        count and line start before it: whether it found the closing delimiter, where it stopped,
        and the line count and line start after the line breaks it passed. */
    method SkipBlockCommentBody(q: int, lines0: int, lineStart0: int)
      returns (commentClosed: bool, end: int, lines: int, lineStart: int)
      requires 0 <= q <= |text|
      ensures var b := BlockCommentSpec(text, q);
        commentClosed == b.closed && end == b.loopEnd &&
        lines == BlockLines(b, lines0, lineStart0).0 && lineStart == BlockLines(b, lines0, lineStart0).1
    {
      end, lines, lineStart := q, lines0, lineStart0;
      var safeLength := |text| - 1;
      while end < safeLength
        invariant BlockLoopInvariant(text, q, end, lines, lineStart, lines0, lineStart0)
        decreases |text| - end
      {
        var ch := CharAt(text, end);
        assert ch == text[end] && CharAt(text, end + 1) == text[end + 1];
        if ch == Asterisk && CharAt(text, end + 1) == Slash {
          break;
        }
        ghost var p, lines', lineStart' := end, lines, lineStart;
        end := end + 1;
        if IsLineBreak(ch) {
          if ch == CarriageReturn && CharAt(text, end) == LineFeed {
            end := end + 1;
          }
          lines := lines + 1;
          lineStart := end;
        }
        BlockLoopStep(text, q, p, end, lines', lineStart', lines0, lineStart0);
      }
      BlockLoopExit(text, q, end, lines, lineStart, lines0, lineStart0);
      commentClosed := end < safeLength;
      if commentClosed {
        end := end + 2;
      }
    }

    /** A block comment: up to its closing delimiter, counting the line breaks inside it; an
        unterminated one ends one position past where its loop stopped. */
    method ScanBlockComment()
      requires 0 <= pos && pos + 1 < |text| && tokenOffset == pos
      requires text[pos] == Slash && text[pos + 1] == Asterisk
      modifies this
      ensures State() == BlockCommentToken(text, old(State()))
    {
      var start := pos - 1;
      var commentClosed, end, lines, lineStart := SkipBlockCommentBody(pos + 2, lineNumber, tokenLineStartOffset);
      if !commentClosed {
        end := end + 1;
      }
      ghost var b := BlockCommentSpec(text, old(pos) + 2);
      assert end == (if b.closed then b.loopEnd else b.loopEnd + 1);
      var error := if commentClosed then scanError else ScanError.UnexpectedEndOfComment;
      pos, value, lineNumber, tokenLineStartOffset, scanError, token :=
        end, Substring(text, start, end), lines, lineStart, error, BlockCommentTrivia;
    }

    /** The `-` and digit cases of scanNext. */
    method ScanNumberToken()
      requires 0 <= pos < |text| && (text[pos] == Minus || IsDigit(text[pos]))
      requires tokenOffset == pos && value == [] && scanError == ScanError.None
      modifies this
      ensures State() == NumberToken(text, old(State()))
    {
      var p, v := pos, value;
      if text[p] == Minus {
        p, v := p + 1, v + [Minus];
        if p == |text| || !IsDigit(CharAt(text, p)) {
          pos, value, token := p, v, Unknown;
          return;
        }
        assert IsDigit(text[p]);
      }
      var end, digits, error := ScanNumber(p);
      pos, value, scanError, token := end, v + digits, error, NumericLiteral;
    }

    /** The default case of scanNext: a property name or keyword, or a run of unknown content. */
    method ScanWord()
      requires 0 <= pos < |text| && tokenOffset == pos && value == []
      modifies this
      ensures State() == WordToken(rev, text, old(State()))
    {
      var code := text[pos];
      if IsValidPropertyCharacterStart(rev, code) {
        var end, name := ScanPropertyName(pos + 1);
        pos, value, token := end, name, KeywordOr(name, PropertyName);
        return;
      }
      var p := pos;
      while p < |text| && IsUnknownContentCharacter(code)
        invariant pos <= p <= |text| && code == CharAt(text, p)
        invariant RunEnd(text, p, UnknownContentClass) == RunEnd(text, pos, UnknownContentClass)
        modifies {}
        decreases |text| - p
      {
        p := p + 1;
        code := CharAt(text, p);
      }
      if tokenOffset != p {
        pos, value := p, Substring(text, tokenOffset, p);
        token := KeywordOr(value, Unknown);
        return;
      }
      pos, value, token := p + 1, value + [code], Unknown;
    }

    /** scanNext: the next token, trivia included. */
    method ScanNext() returns (k: SyntaxKind)
      requires Valid()
      modifies this
      ensures Valid() && State() == ScanNextSpec(rev, text, old(State())) && k == token
    {
      value := [];
      scanError := ScanError.None;
      tokenOffset := pos;
      lineStartOffset := lineNumber;
      prevTokenLineStartOffset := tokenLineStartOffset;
      assert State() == TokenStart(old(State()));

      if pos >= |text| {
        tokenOffset := |text|;
        token := EOF;
        return token;
      }
      var code := text[pos];
      if IsWhiteSpace(code) {
        ScanWhitespace();
      } else if IsLineBreak(code) {
        ScanLineBreak();
      } else if IsPunctuation(code) {
        pos := pos + 1;
        token := PunctuationKind(code);
      } else if code == DoubleQuote {
        var end, decoded, error := ScanString(pos + 1);
        pos, value, scanError, token := end, decoded, LastError(scanError, error), StringLiteral;
      } else if code == Slash {
        if CharAt(text, pos + 1) == Slash {
          ScanLineComment();
        } else if CharAt(text, pos + 1) == Asterisk {
          ScanBlockComment();
        } else {
          value := value + [code];
          pos := pos + 1;
          token := Unknown;
        }
      } else if code == Hash {
        ScanLineComment();
      } else if code == Minus || IsDigit(code) {
        ScanNumberToken();
      } else {
        ScanWord();
      }
      return token;
    }

    /** scanNextNonTrivia: scanNext until a token that is not trivia. */
    method ScanNextNonTrivia() returns (k: SyntaxKind)
      requires Valid()
      modifies this
      ensures Valid() && State() == ScanNonTriviaSpec(rev, text, old(State())) && k == token
    {
      NonTriviaEntry(rev, text, State());
      k := ScanNext();
      while IsTrivia(k)
        invariant k == token && NonTriviaInvariant(rev, text, old(State()), State())
        decreases NonTriviaMeasure(text, State())
      {
        NonTriviaStep(rev, text, old(State()), State());
        k := ScanNext();
      }
    }

    /** scan: scanNextNonTrivia when the scanner ignores trivia, scanNext otherwise. */
    method Scan() returns (k: SyntaxKind)
      requires Valid()
      modifies this
      ensures Valid() && k == token
      ensures State() == (if ignoreTrivia then ScanNonTriviaSpec(rev, text, old(State()))
                          else ScanNextSpec(rev, text, old(State())))
    {
      if ignoreTrivia {
        k := ScanNextNonTrivia();
      } else {
        k := ScanNext();
      }
    }
  }
}
