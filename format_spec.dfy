/** FormatLibConfigDocument as pure functions of the formatter's state: the trivia-skipping
    `scanNext`, `addEdit`, the same-line comment loop, the choice of separator after each token,
    and the main loop. The imperative formatter in module Formatter computes exactly these. */
module FormatSpec {
  import opened Kinds
  import opened Chars
  import opened ScannerSpec
  import opened ParserSpec
  import opened FormatHelpers

  /** The formatter runs over the compiled scanner, with trivia. */
  const Rev: Revision := CompiledRevision

  /** One replacement: `length` code units at `offset` become `content`. */
  datatype Edit = Edit(offset: int, length: int, content: seq<int>)

  /** What stays fixed during one formatting: the text, the end-of-line sequence and the
      indentation unit. */
  datatype Env = Env(text: seq<int>, eol: seq<int>, indentValue: seq<int>)

  /** The formatter's closure variables. */
  datatype FormatState = FormatState(scan: ScannerState, lineBreak: bool, hasError: bool,
                                     indentLevel: int, edits: seq<Edit>)

  /** The whole document is formatted: the formatted text starts where the document does, and
      no enclosing indentation is added. */
  const FormatTextStart: int := 0
  const InitialIndentLevel: int := 0

  /** newLineAndIndent at `level`. */
  function NewLineAndIndent(env: Env, level: int): seq<int> {
    env.eol + Copies(env.indentValue, InitialIndentLevel + level)
  }

  /** The inner loop of scanNext: scan on over whitespace and line breaks, noting a line break. */
  function SkipTriviaF(text: seq<int>, s: ScannerState, lineBreak: bool): (r: (ScannerState, bool))
    requires ScanOk(text, s) && (s.token == Trivia || s.token == LineBreakTrivia ==> s.pos <= |text|)
    ensures ScanOk(text, r.0) && r.0.token != Trivia && r.0.token != LineBreakTrivia
    ensures Rank(text, r.0) <= Rank(text, s) && s.tokenOffset <= r.0.tokenOffset
    decreases Rank(text, s)
  {
    if s.token == Trivia || s.token == LineBreakTrivia then
      var n := ScanNextSpec(Rev, text, s);
      ScanStartsAtPos(text, s);
      SkipTriviaF(text, n, lineBreak || s.token == LineBreakTrivia)
    else (s, lineBreak)
  }

  /** The token scanNext yields starts where the last one ended (or at the end of the text). */
  lemma ScanStartsAtPos(text: seq<int>, s: ScannerState)
    requires ScanOk(text, s)
    ensures var n := ScanNextSpec(Rev, text, s);
      ScanOk(text, n) && Rank(text, n) <= Rank(text, s) && (s.token != EOF ==> Rank(text, n) < Rank(text, s)) &&
      (s.pos <= |text| ==> s.pos <= n.tokenOffset) &&
      (n.token == Trivia || n.token == LineBreakTrivia ==> n.pos <= |text|)
  {
    ScanStep(Rev, text, s);
    if s.pos >= |text| {
      ScanNextAtEnd(Rev, text, s);
    } else {
      ScanNextInText(Rev, text, s);
    }
  }

  /** scanNext: the next token that is not whitespace or a line break, whether a line break came
      before it, and whether it is Unknown or carries a scan error. */
  function ScanNextF(text: seq<int>, fs: FormatState): (r: FormatState)
    requires ScanOk(text, fs.scan)
    ensures ScanOk(text, r.scan) && r.scan.token != Trivia && r.scan.token != LineBreakTrivia
    ensures Rank(text, r.scan) <= Rank(text, fs.scan)
    ensures fs.scan.token != EOF ==> Rank(text, r.scan) < Rank(text, fs.scan)
    ensures fs.scan.pos <= |text| ==> fs.scan.pos <= r.scan.tokenOffset
    ensures r.indentLevel == fs.indentLevel && r.edits == fs.edits
  {
    var n := ScanNextSpec(Rev, text, fs.scan);
    ScanStartsAtPos(text, fs.scan);
    var (s, lineBreak) := SkipTriviaF(text, n, false);
    fs.(scan := s, lineBreak := lineBreak, hasError := s.token == Unknown || s.scanError != ScanError.None)
  }

  /** addEdit: the edit is recorded only when no error is flagged, the range meets the text
      (start before its end, end after its start) and the text there differs from `content`. */
  function AddEditF(text: seq<int>, fs: FormatState, content: seq<int>, start: int, end: int): FormatState {
    if !fs.hasError && start < |text| && end > 0 && Substring(text, start, end) != content then
      fs.(edits := fs.edits + [Edit(start, end - start, content)])
    else fs
  }

  /** The loop over comments on the same line as the token before them: each is kept there,
      one space after what precedes it. Yields the state, the end of the last token kept on the
      line and the separator chosen so far. */
  function CommentLoopF(env: Env, fs: FormatState, firstTokenEnd: int, content: seq<int>): (r: (FormatState, int, seq<int>))
    requires ScanOk(env.text, fs.scan)
    ensures ScanOk(env.text, r.0.scan) && Rank(env.text, r.0.scan) <= Rank(env.text, fs.scan)
    ensures r.0.indentLevel == fs.indentLevel
    ensures r.0.lineBreak || !IsComment(r.0.scan.token)
    ensures fs.edits <= r.0.edits
    decreases Rank(env.text, fs.scan)
  {
    if !fs.lineBreak && IsComment(fs.scan.token) then
      var fs1 := AddEditF(env.text, fs, [Space], firstTokenEnd, fs.scan.tokenOffset + FormatTextStart);
      var c := if fs.scan.token == LineCommentTrivia then NewLineAndIndent(env, fs.indentLevel) else [];
      CommentLoopF(env, ScanNextF(env.text, fs1), fs.scan.pos + FormatTextStart, c)
    else (fs, firstTokenEnd, content)
  }

  /** The separator chosen between two tokens, the indent level after it, and whether editing
      this gap is suppressed. */
  datatype Decision = Decision(content: seq<int>, indentLevel: int, hasError: bool)

  /** After a value or a closer, only a comma, a comment or the end may follow unflagged. */
  function AfterValue(second: SyntaxKind, content: seq<int>, level: int, hasError: bool): Decision {
    if IsComment(second) then Decision([Space], level, hasError)
    else if second != CommaToken && second != EOF then Decision(content, level, true)
    else Decision(content, level, hasError)
  }

  function DecideByFirst(env: Env, first: SyntaxKind, second: SyntaxKind, lineBreak: bool, level: int,
                         hasError: bool, content: seq<int>): Decision {
    match first
    case OpenBracketToken => Decision(NewLineAndIndent(env, level + 1), level + 1, hasError)
    case OpenBraceToken => Decision(NewLineAndIndent(env, level + 1), level + 1, hasError)
    case OpenParenToken => Decision(NewLineAndIndent(env, level + 1), level + 1, hasError)
    case CommaToken => Decision(NewLineAndIndent(env, level), level, hasError)
    case LineCommentTrivia => Decision(NewLineAndIndent(env, level), level, hasError)
    case SemicolonToken => Decision(NewLineAndIndent(env, level), level, hasError)
    case ColonToken => Decision(NewLineAndIndent(env, level), level, hasError)
    case BlockCommentTrivia =>
      Decision(if lineBreak then NewLineAndIndent(env, level) else [Space], level, hasError)
    case PropertyName => Decision([Space], level, hasError)
    case EqualToken => Decision([Space], level, hasError)
    case StringLiteral =>
      if second == ColonToken then Decision([], level, hasError) else AfterValue(second, content, level, hasError)
    case TrueKeyword => AfterValue(second, content, level, hasError)
    case FalseKeyword => AfterValue(second, content, level, hasError)
    case NumericLiteral => AfterValue(second, content, level, hasError)
    case CloseBraceToken => AfterValue(second, content, level, hasError)
    case CloseBracketToken => AfterValue(second, content, level, hasError)
    case CloseParenToken => AfterValue(second, content, level, hasError)
    case Unknown => Decision(content, level, true)
    case _ => Decision(content, level, hasError)
  }

  /** The opener a closer matches. */
  function OpenerOf(closer: SyntaxKind): SyntaxKind
    requires IsCloser(closer)
  {
    match closer
    case CloseBraceToken => OpenBraceToken
    case CloseBracketToken => OpenBracketToken
    case CloseParenToken => OpenParenToken
  }

  predicate IsCloser(k: SyntaxKind) {
    k == CloseBraceToken || k == CloseBracketToken || k == CloseParenToken
  }

  predicate IsOpener(k: SyntaxKind) {
    k == OpenBraceToken || k == OpenBracketToken || k == OpenParenToken
  }

  /** Before a closer: dedent and start a line, unless the closer ends an empty pair. */
  function BeforeCloser(env: Env, first: SyntaxKind, second: SyntaxKind, level: int, hasError: bool,
                        content: seq<int>): Decision
    requires IsCloser(second)
  {
    if first != OpenerOf(second) then Decision(NewLineAndIndent(env, level - 1), level - 1, hasError)
    else Decision(content, level, hasError)
  }

  /** Before anything else: the token before decides, and a comment after a line break starts a
      line of its own. */
  function BeforeOther(env: Env, first: SyntaxKind, second: SyntaxKind, lineBreak: bool, level: int,
                       hasError: bool, content: seq<int>): Decision {
    var d := DecideByFirst(env, first, second, lineBreak, level, hasError, content);
    if lineBreak && IsComment(second) then d.(content := NewLineAndIndent(env, d.indentLevel)) else d
  }

  /** The separator between `first` and `second`. */
  function Decide(env: Env, first: SyntaxKind, second: SyntaxKind, lineBreak: bool, level: int,
                  hasError: bool, content: seq<int>): Decision {
    if IsCloser(second) then BeforeCloser(env, first, second, level, hasError, content)
    else BeforeOther(env, first, second, lineBreak, level, hasError, content)
  }

  /** One pass of the main loop, from the first token to the next one kept. */
  function FormatStepF(env: Env, fs: FormatState): (r: FormatState)
    requires ScanOk(env.text, fs.scan) && fs.scan.token != EOF
    ensures ScanOk(env.text, r.scan) && Rank(env.text, r.scan) < Rank(env.text, fs.scan)
  {
    var first := fs.scan.token;
    var fs1 := ScanNextF(env.text, fs);
    var (fs2, firstTokenEnd, content) := CommentLoopF(env, fs1, fs.scan.pos + FormatTextStart, []);
    var d := Decide(env, first, fs2.scan.token, fs2.lineBreak, fs2.indentLevel, fs2.hasError, content);
    AddEditF(env.text, fs2.(indentLevel := d.indentLevel, hasError := d.hasError), d.content,
             firstTokenEnd, fs2.scan.tokenOffset + FormatTextStart)
  }

  /** The main loop: a pass per token until EOF. */
  function FormatLoopF(env: Env, fs: FormatState): (r: FormatState)
    requires ScanOk(env.text, fs.scan)
    ensures r.scan.token == EOF
    decreases Rank(env.text, fs.scan)
  {
    if fs.scan.token == EOF then fs else FormatLoopF(env, FormatStepF(env, fs))
  }

  function EnvOf(text: seq<int>, options: Options): Env {
    Env(text, EolOf(options, text), IndentUnit(options))
  }

  function InitialFormatState(): FormatState {
    FormatState(InitialState(), false, false, 0, [])
  }

  /** The set-up of FormatLibConfigDocument: the first token is scanned and the gap before it is
      brought to the initial indentation (none). */
  function FormatStart(env: Env): (r: FormatState)
    ensures ScanOk(env.text, r.scan)
  {
    var fs0 := InitialFormatState();
    assert ScanOk(env.text, fs0.scan);
    var fs1 := ScanNextF(env.text, fs0);
    if fs1.scan.token != EOF then AddEditF(env.text, fs1, Copies(env.indentValue, InitialIndentLevel), FormatTextStart,
                                           fs1.scan.tokenOffset + FormatTextStart)
    else fs1
  }

  /** FormatLibConfigDocument: the edits of the main loop run from the set-up. */
  function FormatF(text: seq<int>, options: Options): seq<Edit> {
    var env := EnvOf(text, options);
    FormatLoopF(env, FormatStart(env)).edits
  }
}
