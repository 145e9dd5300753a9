/** The diagnostics parser (ParseLibConfigDocument) as pure functions: every procedure of the
    parser is a function from the parser's state (the scanner's state, the problems found, the
    offset of the last one and the comment ranges) to the state it leaves. The procedures are
    mutually recursive; each pass over a token lowers the scanner's Rank, which is what makes
    them terminate. The imperative parser in module Parser is proved to compute these functions. */
module ParserSpec {
  import opened Kinds
  import opened Chars
  import opened Wrappers
  import opened ScannerSpec

  /** A problem report: its range as offsets into the text, its message and its code. */
  datatype Diagnostic = Diagnostic(start: int, end: int, message: string, code: ErrorCode)

  /** The range of a comment token, as offsets. */
  datatype Span = Span(start: int, end: int)

  datatype ParserState = ParserState(scan: ScannerState, problems: seq<Diagnostic>,
                                     lastProblemOffset: int, commentRanges: seq<Span>)

  function InitialParserState(): ParserState {
    ParserState(InitialState(), [], -1, [])
  }

  const PropertyExpectedMessage := "Expected a property value name"
  const ColonExpectedMessage := "Expected a colon or equal"
  const ValueExpectedMessage := "Expected setting type kind value"
  const CommaExpectedMessage := "Expected a comma"
  const ScalarExpectedMessage := "Array entries must be scalar values"
  const MismatchArrayTypeMessage := "Array entries must all have the same type"
  const SemicolonExpectedMessage := "Expected a terminator"

  // ---------------------------------------------------------------------------------------
  // Well-formed states and progress

  /** What holds of the scanner's state at every point where the parser looks at it. */
  predicate ScanOk(text: seq<int>, s: ScannerState) {
    0 <= s.tokenOffset <= s.pos <= |text| + 1
  }

  /** The termination measure: twice the distance to just past the end, plus one while the
      current token is not EOF (so that scanning past a final token, which stays in place and
      yields EOF, still lowers it). */
  function Rank(text: seq<int>, s: ScannerState): int {
    2 * (|text| + 2 - s.pos) + (if s.token == EOF then 0 else 1)
  }

  /** The problems list never holds two neighbours with the same start offset, the last
      problem's start is remembered, and every range is non-empty except one at offset 0. */
  predicate ProblemsOk(ps: ParserState) {
    var p := ps.problems;
    (forall i :: 0 < i < |p| ==> p[i - 1].start != p[i].start) &&
    (|p| > 0 ==> ps.lastProblemOffset == p[|p| - 1].start) &&
    (forall i :: 0 <= i < |p| ==> 0 <= p[i].start <= p[i].end && (p[i].start == p[i].end ==> p[i].start == 0))
  }

  /** The comment ranges are non-empty, in order, do not overlap, and lie behind the scanner. */
  predicate CommentsOk(ps: ParserState) {
    var c := ps.commentRanges;
    (forall i :: 0 <= i < |c| ==> 0 <= c[i].start < c[i].end <= ps.scan.pos) &&
    (forall i :: 0 < i < |c| ==> c[i - 1].end <= c[i].start)
  }

  /** `r` follows from `ps`: the scanner has not moved back, problems and comment ranges have
      only been appended to, and the two predicates above are kept. */
  predicate Advances(text: seq<int>, ps: ParserState, r: ParserState) {
    ScanOk(text, r.scan) && ps.scan.pos <= r.scan.pos && Rank(text, r.scan) <= Rank(text, ps.scan) &&
    ps.problems <= r.problems && ps.commentRanges <= r.commentRanges &&
    (ProblemsOk(ps) ==> ProblemsOk(r)) && (CommentsOk(ps) ==> CommentsOk(r))
  }

  lemma AdvancesTransitive(text: seq<int>, a: ParserState, b: ParserState, c: ParserState)
    requires Advances(text, a, b) && Advances(text, b, c)
    ensures Advances(text, a, c)
  {
  }

  /** What one call of scanNext does to a well-formed scanner state. */
  lemma ScanStep(rev: Revision, text: seq<int>, s: ScannerState)
    requires ScanOk(text, s)
    ensures var n := ScanNextSpec(rev, text, s);
      ScanOk(text, n) && s.pos <= n.pos && Rank(text, n) <= Rank(text, s) &&
      (s.token != EOF ==> Rank(text, n) < Rank(text, s)) &&
      (s.pos < |text| ==> n.tokenOffset == s.pos < n.pos && n.token != EOF) &&
      (s.pos >= |text| ==> n.token == EOF && n.pos == s.pos) &&
      (IsTrivia(n.token) ==> s.pos < |text|)
  {
    if s.pos < |text| {
      ScanNextInText(rev, text, s);
    } else {
      ScanNextAtEnd(rev, text, s);
      assert !IsTrivia(EOF);
    }
  }

  // ---------------------------------------------------------------------------------------
  // Recording problems (_errorAtRange, _error's range, _checkScanError)

  /** _errorAtRange: a problem is added unless the list is non-empty and the last problem
      started at the same offset. */
  function RecordError(ps: ParserState, message: string, code: ErrorCode, start: int, end: int): ParserState {
    if |ps.problems| == 0 || start != ps.lastProblemOffset then
      ps.(problems := ps.problems + [Diagnostic(start, end, message, code)], lastProblemOffset := start)
    else ps
  }

  /** The loop in _error: from `i` back over the characters the regular expression `\s`
      matches, never below offset 0. */
  function BackOverSpace(text: seq<int>, i: int): (r: int)
    requires 0 <= i
    ensures 0 <= r <= i
    decreases i
  {
    if i > 0 && IsRegExpSpace(CharAt(text, i)) then BackOverSpace(text, i - 1) else i
  }

  /** The range _error reports for the current token: the token itself, or, for an empty
      token past offset 0, the one character found by stepping back over whitespace. */
  function ErrorRange(text: seq<int>, s: ScannerState): (r: (int, int))
    requires ScanOk(text, s)
    ensures 0 <= r.0 <= r.1 && (r.0 == r.1 ==> r.0 == 0)
  {
    var start := s.tokenOffset;
    var end := s.tokenOffset + (s.pos - s.tokenOffset);
    if start == end && start > 0 then
      var b := BackOverSpace(text, start - 1);
      (b, b + 1)
    else (start, end)
  }

  /** _error without skipping: report the problem at the current token. */
  function ErrorAt(text: seq<int>, ps: ParserState, message: string, code: ErrorCode): (r: ParserState)
    requires ScanOk(text, ps.scan)
    ensures r.scan == ps.scan && r.commentRanges == ps.commentRanges && Advances(text, ps, r)
  {
    var range := ErrorRange(text, ps.scan);
    RecordError(ps, message, code, range.0, range.1)
  }

  /** The message and code _checkScanError reports for a scan error; None and
      UnexpectedEndOfPropertyName are not reported. */
  function ScanErrorProblem(e: ScanError): Option<(string, ErrorCode)> {
    match e
    case InvalidUnicode => Some(("Invalid unicode sequence in string.", ErrorCode.InvalidUnicode))
    case InvalidEscapeCharacter => Some(("Invalid escape character in string.", ErrorCode.InvalidEscapeCharacter))
    case UnexpectedEndOfNumber => Some(("Unexpected end of number.", ErrorCode.UnexpectedEndOfNumber))
    case UnexpectedEndOfComment => Some(("Unexpected end of comment.", ErrorCode.UnexpectedEndOfComment))
    case UnexpectedEndOfString => Some(("Unexpected end of string.", ErrorCode.UnexpectedEndOfString))
    case InvalidCharacter =>
      Some(("Invalid characters in string. Control characters must be escaped.", ErrorCode.InvalidCharacter))
    case _ => Nothing
  }

  function CheckScanError(text: seq<int>, ps: ParserState): (r: ParserState)
    requires ScanOk(text, ps.scan)
    ensures r.scan == ps.scan && r.commentRanges == ps.commentRanges && Advances(text, ps, r)
  {
    match ScanErrorProblem(ps.scan.scanError)
    case Nothing => ps
    case Some(problem) => ErrorAt(text, ps, problem.0, problem.1)
  }

  // ---------------------------------------------------------------------------------------
  // _scanNext and the skip of _error

  /** _scanNext: scan until a token that is not trivia, reporting the scan error of every token
      scanned and recording the range of every comment. */
  function ScanNextP(rev: Revision, text: seq<int>, ps: ParserState): (r: ParserState)
    requires ScanOk(text, ps.scan)
    ensures Advances(text, ps, r) && !IsTrivia(r.scan.token)
    ensures ps.scan.token != EOF ==> Rank(text, r.scan) < Rank(text, ps.scan)
    decreases |text| + 2 - ps.scan.pos
  {
    var ps1 := ScanTokenP(rev, text, ps);
    ScanTokenFacts(rev, text, ps);
    if IsTrivia(ps1.scan.token) then
      var r := ScanNextP(rev, text, ps1);
      AdvancesTransitive(text, ps, ps1, r);
      r
    else ps1
  }

  /** One pass of _scanNext's loop: scan one token, report its scan error and record it when it
      is a comment. */
  function ScanTokenP(rev: Revision, text: seq<int>, ps: ParserState): ParserState
    requires ScanOk(text, ps.scan)
  {
    var s := ScanNextSpec(rev, text, ps.scan);
    ScanStep(rev, text, ps.scan);
    var ps1 := CheckScanError(text, ps.(scan := s));
    if IsComment(s.token) then ps1.(commentRanges := ps1.commentRanges + [Span(s.tokenOffset, s.pos)])
    else ps1
  }

  lemma ScanTokenFacts(rev: Revision, text: seq<int>, ps: ParserState)
    requires ScanOk(text, ps.scan)
    ensures var r := ScanTokenP(rev, text, ps);
      Advances(text, ps, r) && r.scan == ScanNextSpec(rev, text, ps.scan) &&
      (IsTrivia(r.scan.token) ==> ps.scan.pos < r.scan.pos <= |text| + 1) &&
      (ps.scan.token != EOF ==> Rank(text, r.scan) < Rank(text, ps.scan))
  {
    var s := ScanNextSpec(rev, text, ps.scan);
    ScanStep(rev, text, ps.scan);
    var ps0 := ps.(scan := s);
    ScannerMoves(text, ps, s);
    var ps1 := CheckScanError(text, ps0);
    AdvancesTransitive(text, ps, ps0, ps1);
    if IsComment(s.token) {
      var ps2 := ps1.(commentRanges := ps1.commentRanges + [Span(s.tokenOffset, s.pos)]);
      CommentRecorded(text, ps, ps1, ps2);
    }
  }

  /** Moving the scanner forward keeps every property of the parser's state. */
  lemma ScannerMoves(text: seq<int>, ps: ParserState, s: ScannerState)
    requires ScanOk(text, ps.scan) && ScanOk(text, s) && ps.scan.pos <= s.pos
    requires Rank(text, s) <= Rank(text, ps.scan)
    ensures Advances(text, ps, ps.(scan := s))
  {
  }

  /** Recording a comment token that starts where the scanner stood in `ps` keeps the comment
      ranges in order. */
  lemma CommentRecorded(text: seq<int>, ps: ParserState, ps1: ParserState, ps2: ParserState)
    requires Advances(text, ps, ps1) && ps1.commentRanges == ps.commentRanges
    requires ps.scan.pos <= ps1.scan.tokenOffset < ps1.scan.pos
    requires ps2 == ps1.(commentRanges := ps1.commentRanges + [Span(ps1.scan.tokenOffset, ps1.scan.pos)])
    ensures Advances(text, ps, ps2)
  {
  }

  /** The skip loop of _error: stop just after the first token in `after`, just before the first
      token in `until`, or at EOF. */
  function SkipP(rev: Revision, text: seq<int>, ps: ParserState, after: seq<SyntaxKind>,
                 until: seq<SyntaxKind>): (r: ParserState)
    requires ScanOk(text, ps.scan)
    ensures Advances(text, ps, r)
    ensures ps.scan.token != EOF && ps.scan.token !in until ==> Rank(text, r.scan) < Rank(text, ps.scan)
    decreases Rank(text, ps.scan)
  {
    var token := ps.scan.token;
    if token == EOF then ps
    else if token in after then ScanNextP(rev, text, ps)
    else if token in until then ps
    else SkipP(rev, text, ScanNextP(rev, text, ps), after, until)
  }

  /** _error: report the problem at the current token, then skip when a skip set is given. */
  function ErrorP(rev: Revision, text: seq<int>, ps: ParserState, message: string, code: ErrorCode,
                  after: seq<SyntaxKind>, until: seq<SyntaxKind>): (r: ParserState)
    requires ScanOk(text, ps.scan)
    ensures Advances(text, ps, r)
    ensures |after| > 0 && ps.scan.token != EOF && ps.scan.token !in until ==>
              Rank(text, r.scan) < Rank(text, ps.scan)
  {
    var ps1 := ErrorAt(text, ps, message, code);
    if |after| + |until| > 0 then SkipP(rev, text, ps1, after, until) else ps1
  }

  // ---------------------------------------------------------------------------------------
  // The recursive descent

  /** _parseSetting: `name = value ;` (or `name : value ;`). */
  function ParseSettingP(rev: Revision, text: seq<int>, ps: ParserState): (r: ParserState)
    requires ScanOk(text, ps.scan)
    ensures Advances(text, ps, r)
    ensures ps.scan.token != EOF ==> Rank(text, r.scan) < Rank(text, ps.scan)
    decreases Rank(text, ps.scan), 6
  {
    if ps.scan.token != PropertyName then
      ErrorP(rev, text, ps, PropertyExpectedMessage, ErrorCode.PropertyExpected, [SemicolonToken], [])
    else
      var ps1 := ScanNextP(rev, text, ps);
      if ps1.scan.token != EqualToken && ps1.scan.token != ColonToken then
        var r := ErrorP(rev, text, ps1, ColonExpectedMessage, ErrorCode.ColonExpected, [SemicolonToken], []);
        AdvancesTransitive(text, ps, ps1, r);
        r
      else
        var (ps2, _) := ParseValueP(rev, text, ps1, true);
        var r := ParseTerminatorP(rev, text, ps2);
        AdvancesTransitive(text, ps1, ps2, r);
        AdvancesTransitive(text, ps, ps1, r);
        r
  }

  /** _parseValue: the value at the next token (`scan`) or at the current one; its kind. A
      boolean keyword counts as a Number, so the kind is never Boolean. */
  function ParseValueP(rev: Revision, text: seq<int>, ps: ParserState, scan: bool): (r: (ParserState, SettingKind))
    requires ScanOk(text, ps.scan)
    ensures Advances(text, ps, r.0)
    ensures scan && ps.scan.token != EOF ==> Rank(text, r.0.scan) < Rank(text, ps.scan)
    ensures r.1 != SettingKind.Boolean
    decreases Rank(text, ps.scan), 4
  {
    var ps1 := if scan then ScanNextP(rev, text, ps) else ps;
    var r := ValueAtP(rev, text, ps1);
    AdvancesTransitive(text, ps, ps1, r.0);
    r
  }

  /** The dispatch of _parseValue on the token it stands on. */
  function ValueAtP(rev: Revision, text: seq<int>, ps: ParserState): (r: (ParserState, SettingKind))
    requires ScanOk(text, ps.scan)
    ensures Advances(text, ps, r.0) && r.1 != SettingKind.Boolean
    decreases Rank(text, ps.scan), 3
  {
    match ps.scan.token
    case OpenBraceToken => (ParseGroupP(rev, text, ps), SettingKind.Group)
    case OpenParenToken => (ParseListP(rev, text, ps), SettingKind.List)
    case OpenBracketToken => (ParseArrayP(rev, text, ps), SettingKind.Array)
    case NumericLiteral => (ps, SettingKind.Number)
    case TrueKeyword => (ps, SettingKind.Number)
    case FalseKeyword => (ps, SettingKind.Number)
    case StringLiteral => (ps, SettingKind.String)
    case _ =>
      (ErrorP(rev, text, ps, ValueExpectedMessage, ErrorCode.ValueExpected, [], [SemicolonToken]),
       SettingKind.Invalid)
  }

  /** _parseGroup, at `{`: settings up to `}` or EOF. */
  function ParseGroupP(rev: Revision, text: seq<int>, ps: ParserState): (r: ParserState)
    requires ScanOk(text, ps.scan) && ps.scan.token == OpenBraceToken
    ensures Advances(text, ps, r) && Rank(text, r.scan) < Rank(text, ps.scan)
    decreases Rank(text, ps.scan), 2
  {
    var ps1 := ScanNextP(rev, text, ps);
    var r := GroupLoopP(rev, text, ps1);
    AdvancesTransitive(text, ps, ps1, r);
    r
  }

  function GroupLoopP(rev: Revision, text: seq<int>, ps: ParserState): (r: ParserState)
    requires ScanOk(text, ps.scan)
    ensures Advances(text, ps, r)
    ensures r.scan.token == CloseBraceToken || r.scan.token == EOF
    decreases Rank(text, ps.scan), 8
  {
    if ps.scan.token == CloseBraceToken || ps.scan.token == EOF then ps
    else
      var ps1 := ParseSettingP(rev, text, ps);
      var r := GroupLoopP(rev, text, ps1);
      AdvancesTransitive(text, ps, ps1, r);
      r
  }

  /** _parseList, at `(`: values separated by commas up to `)` or EOF. */
  function ParseListP(rev: Revision, text: seq<int>, ps: ParserState): (r: ParserState)
    requires ScanOk(text, ps.scan) && ps.scan.token == OpenParenToken
    ensures Advances(text, ps, r) && Rank(text, r.scan) < Rank(text, ps.scan)
    decreases Rank(text, ps.scan), 2
  {
    var ps1 := ScanNextP(rev, text, ps);
    if ps1.scan.token == CloseParenToken then ps1
    else
      var (ps2, _) := ParseValueP(rev, text, ps1, false);
      var ps3 := ScanNextP(rev, text, ps2);
      var r := ListLoopP(rev, text, ps3, ps3.scan.token);
      AdvancesTransitive(text, ps2, ps3, r);
      AdvancesTransitive(text, ps1, ps2, r);
      AdvancesTransitive(text, ps, ps1, r);
      r
  }

  /** The loop of _parseList. `nextToken` is the token read after the last value; it is not
      read again after a missing comma is reported. */
  function ListLoopP(rev: Revision, text: seq<int>, ps: ParserState, nextToken: SyntaxKind): (r: ParserState)
    requires ScanOk(text, ps.scan)
    ensures Advances(text, ps, r)
    ensures r.scan.token == CloseParenToken || r.scan.token == EOF
    decreases Rank(text, ps.scan), 8
  {
    if ps.scan.token == CloseParenToken || ps.scan.token == EOF then ps
    else if nextToken != CommaToken then
      var ps1 := ErrorP(rev, text, ps, CommaExpectedMessage, ErrorCode.CommaExpected,
                        [CloseParenToken, CommaToken], []);
      var r := ListLoopP(rev, text, ps1, nextToken);
      AdvancesTransitive(text, ps, ps1, r);
      r
    else
      var (ps1, _) := ParseValueP(rev, text, ps, true);
      var ps2 := ScanNextP(rev, text, ps1);
      var r := ListLoopP(rev, text, ps2, ps2.scan.token);
      AdvancesTransitive(text, ps1, ps2, r);
      AdvancesTransitive(text, ps, ps1, r);
      r
  }

  /** The validateValue closure of _parseArray: it checks the first element's kind (whatever
      kind it is given) and reports a non-scalar one. */
  function ValidateArrayEntry(text: seq<int>, ps: ParserState, firstKind: SettingKind): (r: ParserState)
    requires ScanOk(text, ps.scan)
    ensures r.scan == ps.scan && Advances(text, ps, r)
  {
    if firstKind == SettingKind.Number || firstKind == SettingKind.Boolean || firstKind == SettingKind.String then ps
    else ErrorAt(text, ps, ScalarExpectedMessage, ErrorCode.ValueExpected)
  }

  /** _parseArray, at `[`: scalar values of one kind separated by commas up to `]` or EOF. */
  function ParseArrayP(rev: Revision, text: seq<int>, ps: ParserState): (r: ParserState)
    requires ScanOk(text, ps.scan) && ps.scan.token == OpenBracketToken
    ensures Advances(text, ps, r) && Rank(text, r.scan) < Rank(text, ps.scan)
    decreases Rank(text, ps.scan), 2
  {
    var ps1 := ScanNextP(rev, text, ps);
    if ps1.scan.token == CloseBracketToken then ps1
    else
      var (ps2, firstKind) := ParseValueP(rev, text, ps1, false);
      var ps3 := ValidateArrayEntry(text, ps2, firstKind);
      var ps4 := ScanNextP(rev, text, ps3);
      var r := ArrayLoopP(rev, text, ps4, firstKind);
      AdvancesTransitive(text, ps3, ps4, r);
      AdvancesTransitive(text, ps2, ps3, r);
      AdvancesTransitive(text, ps1, ps2, r);
      AdvancesTransitive(text, ps, ps1, r);
      r
  }

  /** The loop of _parseArray, with the comma test made on the current token (see
      ArrayStepAsWritten for the loop as written). */
  function ArrayLoopP(rev: Revision, text: seq<int>, ps: ParserState, firstKind: SettingKind): (r: ParserState)
    requires ScanOk(text, ps.scan)
    ensures Advances(text, ps, r)
    ensures r.scan.token == CloseBracketToken || r.scan.token == EOF
    decreases Rank(text, ps.scan), 8
  {
    if ps.scan.token == CloseBracketToken || ps.scan.token == EOF then ps
    else if ps.scan.token != CommaToken then
      var ps1 := ErrorP(rev, text, ps, CommaExpectedMessage, ErrorCode.CommaExpected,
                        [CloseBracketToken], [CommaToken]);
      var r := ArrayLoopP(rev, text, ps1, firstKind);
      AdvancesTransitive(text, ps, ps1, r);
      r
    else
      var (ps1, r1) := ArrayEntryP(rev, text, ps, firstKind);
      var r := ArrayLoopP(rev, text, ps1, r1);
      AdvancesTransitive(text, ps, ps1, r);
      r
  }

  /** One element after a comma in _parseArray: the value, the scalar check, the back-fill of
      an Invalid first kind, the kind-mismatch check and the scan of the token after it. */
  function ArrayEntryP(rev: Revision, text: seq<int>, ps: ParserState, firstKind: SettingKind)
    : (r: (ParserState, SettingKind))
    requires ScanOk(text, ps.scan) && ps.scan.token == CommaToken
    ensures Advances(text, ps, r.0) && Rank(text, r.0.scan) < Rank(text, ps.scan)
    decreases Rank(text, ps.scan), 6
  {
    var (ps1, secondKind) := ParseValueP(rev, text, ps, true);
    var ps2 := ValidateArrayEntry(text, ps1, firstKind);
    var first := if firstKind == SettingKind.Invalid then secondKind else firstKind;
    var ps3 := if first != secondKind then ErrorAt(text, ps2, MismatchArrayTypeMessage, ErrorCode.ValueExpected)
               else ps2;
    var ps4 := ScanNextP(rev, text, ps3);
    AdvancesTransitive(text, ps2, ps3, ps4);
    AdvancesTransitive(text, ps1, ps2, ps4);
    AdvancesTransitive(text, ps, ps1, ps4);
    (ps4, first)
  }

  /** _parseTerminator: a `;` is consumed with the token after it; anything else is reported and
      skipped past the next `;`. */
  function ParseTerminatorP(rev: Revision, text: seq<int>, ps: ParserState): (r: ParserState)
    requires ScanOk(text, ps.scan)
    ensures Advances(text, ps, r)
  {
    var ps1 := ScanNextP(rev, text, ps);
    var r := if ps1.scan.token != SemicolonToken then
               ErrorP(rev, text, ps1, SemicolonExpectedMessage, ErrorCode.SemicolonExpected,
                      [SemicolonToken, LineBreakTrivia], [])
             else ScanNextP(rev, text, ps1);
    AdvancesTransitive(text, ps, ps1, r);
    r
  }

  /** The top-level loop: settings until EOF. */
  function DocumentLoopP(rev: Revision, text: seq<int>, ps: ParserState): (r: ParserState)
    requires ScanOk(text, ps.scan)
    ensures Advances(text, ps, r) && r.scan.token == EOF
    decreases Rank(text, ps.scan)
  {
    if ps.scan.token == EOF then ps
    else
      var ps1 := ParseSettingP(rev, text, ps);
      var r := DocumentLoopP(rev, text, ps1);
      AdvancesTransitive(text, ps, ps1, r);
      r
  }

  /** ParseLibConfigDocument: the final state; its problems and comment ranges are the result. */
  function ParseDocumentP(rev: Revision, text: seq<int>): (r: ParserState)
    ensures r.scan.token == EOF && ProblemsOk(r) && CommentsOk(r)
  {
    var ps0 := InitialParserState();
    assert ScanOk(text, ps0.scan) && ProblemsOk(ps0) && CommentsOk(ps0);
    var ps1 := ScanNextP(rev, text, ps0);
    var r := DocumentLoopP(rev, text, ps1);
    AdvancesTransitive(text, ps0, ps1, r);
    r
  }
}
