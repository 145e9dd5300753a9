/** The diagnostics parser: ParseLibConfigDocument's closure as a class whose fields are the
    closure's variables (the scanner, the problems list, the offset of the last problem and the
    comment ranges). Every procedure is a method proved to compute the function of the same name
    in module ParserSpec. */
module Parser {
  import opened Kinds
  import opened Chars
  import opened ScannerSpec
  import opened ParserSpec
  import Scanner

  class Parser {
    const text: seq<int>
    const rev: Revision
    const scanner: Scanner.Scanner
    var problems: seq<Diagnostic>
    var lastProblemOffset: int
    var commentRanges: seq<Span>

    function State(): ParserState
      reads this, scanner
    {
      ParserState(scanner.State(), problems, lastProblemOffset, commentRanges)
    }

    /** The scanner reads this parser's text, does not skip trivia, and is in a well-formed state. */
    predicate Valid()
      reads this, scanner
    {
      scanner.text == text && scanner.rev == rev && !scanner.ignoreTrivia && ScanOk(text, scanner.State())
    }

    constructor (text: seq<int>, rev: Revision)
      ensures this.text == text && this.rev == rev && fresh(scanner)
      ensures Valid() && State() == InitialParserState()
    {
      this.text := text;
      this.rev := rev;
      scanner := new Scanner.Scanner(text, rev, false);
      problems := [];
      lastProblemOffset := -1;
      commentRanges := [];
    }

    /** _scanNext: the next token that is not trivia. */
    method ScanNext() returns (k: SyntaxKind)
      requires Valid()
      modifies this, scanner
      ensures Valid() && State() == ScanNextP(rev, text, old(State())) && k == scanner.token
    {
      while true
        invariant Valid() && ScanNextP(rev, text, State()) == ScanNextP(rev, text, old(State()))
        decreases |text| + 2 - scanner.pos
      {
        ghost var before := State();
        ScanTokenFacts(rev, text, before);
        k := ScanToken();
        if !IsTrivia(k) {
          return;
        }
      }
    }

    /** One pass of _scanNext's loop: scan a token, report its scan error, record a comment. */
    method ScanToken() returns (k: SyntaxKind)
      requires Valid()
      modifies this, scanner
      ensures Valid() && State() == ScanTokenP(rev, text, old(State())) && k == scanner.token
    {
      ghost var before := State();
      ScanTokenFacts(rev, text, before);
      k := scanner.Scan();
      var _ := CheckScanError();
      if k == LineCommentTrivia || k == BlockCommentTrivia {
        commentRanges := commentRanges + [Span(scanner.tokenOffset, scanner.tokenOffset + (scanner.pos - scanner.tokenOffset))];
      }
    }

    /** _checkScanError: reports the current token's scan error, if it is one the parser reports. */
    method CheckScanError() returns (reported: bool)
      requires Valid()
      modifies this
      ensures Valid() && State() == ParserSpec.CheckScanError(text, old(State()))
      ensures reported == ScanErrorProblem(old(scanner.scanError)).Some?
    {
      match ScanErrorProblem(scanner.scanError)
      case Nothing =>
        reported := false;
      case Some(problem) =>
        ReportError(problem.0, problem.1);
        reported := true;
    }

    /** _errorAtRange. */
    method ErrorAtRange(message: string, code: ErrorCode, start: int, end: int)
      modifies this
      ensures State() == RecordError(old(State()), message, code, start, end)
    {
      if |problems| == 0 || start != lastProblemOffset {
        problems := problems + [Diagnostic(start, end, message, code)];
        lastProblemOffset := start;
      }
    }

    /** The reporting half of _error: the current token's range, widened when it is empty. */
    method ReportError(message: string, code: ErrorCode)
      requires Valid()
      modifies this
      ensures Valid() && State() == ErrorAt(text, old(State()), message, code)
    {
      var start := scanner.tokenOffset;
      var end := scanner.tokenOffset + (scanner.pos - scanner.tokenOffset);
      if start == end && start > 0 {
        start := start - 1;
        while start > 0 && IsRegExpSpace(CharAt(text, start))
          invariant 0 <= start && BackOverSpace(text, start) == BackOverSpace(text, scanner.tokenOffset - 1)
          decreases start
        {
          start := start - 1;
        }
        end := start + 1;
      }
      ErrorAtRange(message, code, start, end);
    }

    /** _error: report at the current token, then skip just past a token in `after` or up to one
        in `until`, stopping at EOF. */
    method Error(message: string, code: ErrorCode, after: seq<SyntaxKind>, until: seq<SyntaxKind>)
      requires Valid()
      modifies this, scanner
      ensures Valid() && State() == ErrorP(rev, text, old(State()), message, code, after, until)
    {
      ReportError(message, code);
      if |after| + |until| > 0 {
        ghost var reported := State();
        var token := scanner.token;
        while token != EOF
          invariant Valid() && token == scanner.token
          invariant SkipP(rev, text, State(), after, until) == SkipP(rev, text, reported, after, until)
          decreases Rank(text, scanner.State())
        {
          if token in after {
            token := ScanNext();
            break;
          } else if token in until {
            break;
          }
          token := ScanNext();
        }
      }
    }

    /** _parseSetting. */
    method ParseSetting()
      requires Valid()
      modifies this, scanner
      ensures Valid() && State() == ParseSettingP(rev, text, old(State()))
      decreases Rank(text, scanner.State()), 6
    {
      if scanner.token != PropertyName {
        Error(PropertyExpectedMessage, ErrorCode.PropertyExpected, [SemicolonToken], []);
        return;
      }
      var token := ScanNext();
      if token != EqualToken && token != ColonToken {
        Error(ColonExpectedMessage, ErrorCode.ColonExpected, [SemicolonToken], []);
        return;
      }
      var _ := ParseValue(true);
      ParseTerminator();
    }

    /** _parseValue: the value at the next token (`scan`) or at the current one; its kind. */
    method ParseValue(scan: bool) returns (kind: SettingKind)
      requires Valid()
      modifies this, scanner
      ensures Valid() && (State(), kind) == ParseValueP(rev, text, old(State()), scan)
      decreases Rank(text, scanner.State()), 4
    {
      if scan {
        var _ := ScanNext();
      }
      kind := ValueAt();
    }

    /** The switch of _parseValue on the token the scanner stands on. */
    method ValueAt() returns (kind: SettingKind)
      requires Valid()
      modifies this, scanner
      ensures Valid() && (State(), kind) == ValueAtP(rev, text, old(State()))
      decreases Rank(text, scanner.State()), 3
    {
      match scanner.token
      case OpenBraceToken =>
        ParseGroup();
        kind := SettingKind.Group;
      case OpenParenToken =>
        ParseList();
        kind := SettingKind.List;
      case OpenBracketToken =>
        ParseArray();
        kind := SettingKind.Array;
      case NumericLiteral =>
        kind := SettingKind.Number;
      case TrueKeyword =>
        kind := SettingKind.Number;
      case FalseKeyword =>
        kind := SettingKind.Number;
      case StringLiteral =>
        kind := SettingKind.String;
      case _ =>
        Error(ValueExpectedMessage, ErrorCode.ValueExpected, [], [SemicolonToken]);
        kind := SettingKind.Invalid;
    }

    /** _parseGroup, at `{`. */
    method ParseGroup()
      requires Valid() && scanner.token == OpenBraceToken
      modifies this, scanner
      ensures Valid() && State() == ParseGroupP(rev, text, old(State()))
      decreases Rank(text, scanner.State()), 2
    {
      var _ := ScanNext();
      while scanner.token != CloseBraceToken && scanner.token != EOF
        invariant Valid() && Rank(text, scanner.State()) < Rank(text, old(scanner.State()))
        invariant GroupLoopP(rev, text, State()) == ParseGroupP(rev, text, old(State()))
        decreases Rank(text, scanner.State())
      {
        ParseSetting();
      }
    }

    /** _parseList, at `(`. */
    method ParseList()
      requires Valid() && scanner.token == OpenParenToken
      modifies this, scanner
      ensures Valid() && State() == ParseListP(rev, text, old(State()))
      decreases Rank(text, scanner.State()), 2
    {
      var _ := ScanNext();
      if scanner.token == CloseParenToken {
        return;
      }
      var _ := ParseValue(false);
      var nextToken := ScanNext();
      while scanner.token != CloseParenToken && scanner.token != EOF
        invariant Valid() && Rank(text, scanner.State()) < Rank(text, old(scanner.State()))
        invariant ListLoopP(rev, text, State(), nextToken) == ParseListP(rev, text, old(State()))
        decreases Rank(text, scanner.State())
      {
        if nextToken != CommaToken {
          Error(CommaExpectedMessage, ErrorCode.CommaExpected, [CloseParenToken, CommaToken], []);
          continue;
        }
        var _ := ParseValue(true);
        nextToken := ScanNext();
      }
    }

    /** The validateValue closure of _parseArray: it reports a first element that is not a scalar. */
    method ValidateArrayEntry(firstKind: SettingKind)
      requires Valid()
      modifies this
      ensures Valid() && State() == ParserSpec.ValidateArrayEntry(text, old(State()), firstKind)
    {
      match firstKind
      case Number =>
      case Boolean =>
      case String =>
      case _ =>
        ReportError(ScalarExpectedMessage, ErrorCode.ValueExpected);
    }

    /** _parseArray, at `[`, with the correction described at ArrayLoopIteration. */
    method ParseArray()
      requires Valid() && scanner.token == OpenBracketToken
      modifies this, scanner
      ensures Valid() && State() == ParseArrayP(rev, text, old(State()))
      decreases Rank(text, scanner.State()), 2
    {
      var _ := ScanNext();
      if scanner.token == CloseBracketToken {
        return;
      }
      var firstKind := ParseValue(false);
      ValidateArrayEntry(firstKind);
      var nextToken := ScanNext();
      while scanner.token != CloseBracketToken && scanner.token != EOF
        invariant Valid() && Rank(text, scanner.State()) < Rank(text, old(scanner.State()))
        invariant nextToken == scanner.token
        invariant ArrayLoopP(rev, text, State(), firstKind) == ParseArrayP(rev, text, old(State()))
        decreases Rank(text, scanner.State())
      {
        firstKind := ArrayLoopIteration(firstKind, nextToken);
        nextToken := scanner.token;
      }
    }

    /** One pass of _parseArray's loop. A missing comma is reported and skipped up to the next
        comma or just past `]`; the comma test of the next pass is made on the token the scanner
        then stands on (as written, the loop tests the stale token and never leaves once that skip
        stops before a comma; see ParserProperties.ArrayStepAsWritten). */
    method ArrayLoopIteration(firstKind: SettingKind, nextToken: SyntaxKind) returns (first: SettingKind)
      requires Valid() && nextToken == scanner.token
      requires nextToken != CloseBracketToken && nextToken != EOF
      modifies this, scanner
      ensures Valid() && Rank(text, scanner.State()) < Rank(text, old(scanner.State()))
      ensures ArrayLoopP(rev, text, State(), first) == ArrayLoopP(rev, text, old(State()), firstKind)
      decreases Rank(text, scanner.State()), 8
    {
      if nextToken != CommaToken {
        Error(CommaExpectedMessage, ErrorCode.CommaExpected, [CloseBracketToken], [CommaToken]);
        first := firstKind;
      } else {
        first := ParseArrayEntry(firstKind);
      }
    }

    /** The body of _parseArray's loop after a comma: the value, its checks, and the token after
        it. The result is the first element's kind, back-filled when it was Invalid. */
    method ParseArrayEntry(firstKind: SettingKind) returns (first: SettingKind)
      requires Valid() && scanner.token == CommaToken
      modifies this, scanner
      ensures Valid() && State() == ArrayEntryP(rev, text, old(State()), firstKind).0
      ensures first == ArrayEntryP(rev, text, old(State()), firstKind).1
      decreases Rank(text, scanner.State()), 6
    {
      var secondKind := ParseValue(true);
      ValidateArrayEntry(firstKind);
      first := if firstKind == SettingKind.Invalid then secondKind else firstKind;
      if first != secondKind {
        ReportError(MismatchArrayTypeMessage, ErrorCode.ValueExpected);
      }
      var _ := ScanNext();
    }

    /** _parseTerminator. */
    method ParseTerminator()
      requires Valid()
      modifies this, scanner
      ensures Valid() && State() == ParseTerminatorP(rev, text, old(State()))
    {
      var token := ScanNext();
      if token != SemicolonToken {
        Error(SemicolonExpectedMessage, ErrorCode.SemicolonExpected, [SemicolonToken, LineBreakTrivia], []);
        return;
      }
      var _ := ScanNext();
    }

    /** The body of ParseLibConfigDocument: settings until EOF. */
    method Parse()
      requires Valid() && State() == InitialParserState()
      modifies this, scanner
      ensures Valid() && State() == ParseDocumentP(rev, text)
    {
      var _ := ScanNext();
      while scanner.token != EOF
        invariant Valid()
        invariant DocumentLoopP(rev, text, State()) == ParseDocumentP(rev, text)
        decreases Rank(text, scanner.State())
      {
        ParseSetting();
      }
    }
  }

  /** ParseLibConfigDocument: the problems found in the text and the ranges of its comments. */
  method ParseLibConfigDocument(text: seq<int>, rev: Revision) returns (problems: seq<Diagnostic>, commentRanges: seq<Span>)
    ensures var r := ParseDocumentP(rev, text); problems == r.problems && commentRanges == r.commentRanges
  {
    var parser := new Parser(text, rev);
    parser.Parse();
    problems, commentRanges := parser.problems, parser.commentRanges;
  }
}
