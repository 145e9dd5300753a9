/** What FormatLibConfigDocument promises its caller: the edits lie in the text, in order and
    without overlap (so they can be applied together), and each gap gets the separator the
    indentation rules call for. */
module FormatProperties {
  import opened Kinds
  import opened Chars
  import opened ScannerSpec
  import opened ParserSpec
  import opened FormatHelpers
  import opened FormatSpec

  // ---------------------------------------------------------------------------------------
  // The edits are ordered and disjoint

  /** An edit replaces a range that starts inside the text and ends at or before its end. */
  predicate EditInText(text: seq<int>, e: Edit) {
    0 <= e.offset < |text| && 0 <= e.length && e.offset + e.length <= |text|
  }

  /** Every edit lies in the text and ends at or before the next one starts. */
  predicate EditsInOrder(text: seq<int>, edits: seq<Edit>) {
    (forall i :: 0 <= i < |edits| ==> EditInText(text, edits[i])) &&
    (forall i, j :: 0 <= i < j < |edits| ==> edits[i].offset + edits[i].length <= edits[j].offset)
  }

  /** Every edit ends at or before `bound`. */
  predicate EditsEndBy(edits: seq<Edit>, bound: int) {
    forall i :: 0 <= i < |edits| ==> edits[i].offset + edits[i].length <= bound
  }

  /** Only whitespace and line breaks lie between `start` and `end`. */
  predicate Blank(text: seq<int>, start: int, end: int) {
    0 <= start && end <= |text| &&
    forall k :: start <= k < end ==> IsWhiteSpace(text[k]) || IsLineBreak(text[k])
  }

  /** Every edit replaces only whitespace and line breaks. */
  predicate EditsBlank(text: seq<int>, edits: seq<Edit>) {
    forall i :: 0 <= i < |edits| ==> Blank(text, edits[i].offset, edits[i].offset + edits[i].length)
  }

  /** Between passes of the main loop: the edits so far are in order, replace only whitespace
      and line breaks, and end before the current token, which starts in the text (or at its
      end). */
  predicate LoopInvariant(text: seq<int>, fs: FormatState) {
    EditsInOrder(text, fs.edits) && EditsBlank(text, fs.edits) &&
    EditsEndBy(fs.edits, fs.scan.tokenOffset) && fs.scan.tokenOffset <= |text|
  }

  lemma BlankJoin(text: seq<int>, a: int, b: int, c: int)
    requires Blank(text, a, b) && Blank(text, b, c) && b <= c
    ensures Blank(text, a, c)
  {
  }

  /** A scan starts its token where the last one ended, or at the end of the text; a whitespace
      or line-break token spans only such characters. */
  lemma ScanTokenOffset(text: seq<int>, s: ScannerState)
    requires ScanOk(text, s) && s.tokenOffset <= |text|
    ensures var n := ScanNextSpec(Rev, text, s);
      s.tokenOffset <= n.tokenOffset <= |text| && (s.pos <= |text| ==> s.pos <= n.tokenOffset) &&
      (s.pos <= |text| ==> Blank(text, s.pos, n.tokenOffset)) &&
      (n.token == Trivia || n.token == LineBreakTrivia ==> Blank(text, n.tokenOffset, n.pos))
  {
    ScanStep(Rev, text, s);
    if s.pos >= |text| {
      ScanNextAtEnd(Rev, text, s);
    } else {
      ScanNextInText(Rev, text, s);
    }
  }

  /** Skipping whitespace moves the token start forward and keeps it in the text. */
  lemma {:induction false} SkipTriviaTokenOffset(text: seq<int>, s: ScannerState, lineBreak: bool)
    requires ScanOk(text, s) && (s.token == Trivia || s.token == LineBreakTrivia ==> s.pos <= |text|)
    requires s.tokenOffset <= |text|
    requires s.token == Trivia || s.token == LineBreakTrivia ==> Blank(text, s.tokenOffset, s.pos)
    ensures var r := SkipTriviaF(text, s, lineBreak).0;
      s.tokenOffset <= r.tokenOffset <= |text| && Blank(text, s.tokenOffset, r.tokenOffset)
    decreases Rank(text, s)
  {
    if s.token == Trivia || s.token == LineBreakTrivia {
      var n := ScanNextSpec(Rev, text, s);
      ScanStartsAtPos(text, s);
      ScanTokenOffset(text, s);
      SkipTriviaTokenOffset(text, n, lineBreak || s.token == LineBreakTrivia);
      var r := SkipTriviaF(text, n, lineBreak || s.token == LineBreakTrivia).0;
      BlankJoin(text, s.tokenOffset, s.pos, n.tokenOffset);
      BlankJoin(text, s.tokenOffset, n.tokenOffset, r.tokenOffset);
    }
  }

  /** scanNext moves the token start forward, keeps it in the text, and starts the new token no
      earlier than the end of the last one. */
  lemma ScanNextTokenOffset(text: seq<int>, fs: FormatState)
    requires ScanOk(text, fs.scan) && fs.scan.tokenOffset <= |text|
    ensures var r := ScanNextF(text, fs);
      fs.scan.tokenOffset <= r.scan.tokenOffset <= |text| && r.edits == fs.edits &&
      (fs.scan.pos <= |text| ==> fs.scan.pos <= r.scan.tokenOffset && Blank(text, fs.scan.pos, r.scan.tokenOffset))
  {
    var n := ScanNextSpec(Rev, text, fs.scan);
    ScanStartsAtPos(text, fs.scan);
    ScanTokenOffset(text, fs.scan);
    SkipTriviaTokenOffset(text, n, false);
    if fs.scan.pos <= |text| {
      BlankJoin(text, fs.scan.pos, n.tokenOffset, SkipTriviaF(text, n, false).0.tokenOffset);
    }
  }

  /** addEdit keeps the edits in order when the new range starts after every edit so far, and
      afterwards every edit ends by the end of the new range. */
  lemma AddEditInOrder(text: seq<int>, fs: FormatState, content: seq<int>, start: int, end: int)
    requires EditsInOrder(text, fs.edits) && EditsEndBy(fs.edits, start) && EditsEndBy(fs.edits, end)
    requires EditsBlank(text, fs.edits)
    requires 0 <= start && end <= |text| && (start < |text| ==> start <= end && Blank(text, start, end))
    ensures var r := AddEditF(text, fs, content, start, end);
      EditsInOrder(text, r.edits) && EditsBlank(text, r.edits) && EditsEndBy(r.edits, end) && r.scan == fs.scan
  {
  }

  lemma EditsEndByWeaken(edits: seq<Edit>, bound: int, larger: int)
    requires EditsEndBy(edits, bound) && bound <= larger
    ensures EditsEndBy(edits, larger)
  {
  }

  /** The same-line comment loop keeps the edits in order and ending before both the end of the
      last token kept on the line and the start of the token after it. */
  lemma {:induction false} CommentLoopInOrder(env: Env, fs: FormatState, firstTokenEnd: int, content: seq<int>)
    requires ScanOk(env.text, fs.scan) && fs.scan.tokenOffset <= |env.text|
    requires 0 <= firstTokenEnd
    requires firstTokenEnd < |env.text| ==>
               firstTokenEnd <= fs.scan.tokenOffset && Blank(env.text, firstTokenEnd, fs.scan.tokenOffset)
    requires EditsInOrder(env.text, fs.edits) && EditsBlank(env.text, fs.edits)
    requires EditsEndBy(fs.edits, firstTokenEnd) && EditsEndBy(fs.edits, fs.scan.tokenOffset)
    ensures var r := CommentLoopF(env, fs, firstTokenEnd, content);
      r.0.scan.tokenOffset <= |env.text| && 0 <= r.1 &&
      (r.1 < |env.text| ==> r.1 <= r.0.scan.tokenOffset && Blank(env.text, r.1, r.0.scan.tokenOffset)) &&
      EditsInOrder(env.text, r.0.edits) && EditsBlank(env.text, r.0.edits) &&
      EditsEndBy(r.0.edits, r.1) && EditsEndBy(r.0.edits, r.0.scan.tokenOffset)
    decreases Rank(env.text, fs.scan)
  {
    if !fs.lineBreak && IsComment(fs.scan.token) {
      var text := env.text;
      var fs1 := AddEditF(text, fs, [Space], firstTokenEnd, fs.scan.tokenOffset);
      AddEditInOrder(text, fs, [Space], firstTokenEnd, fs.scan.tokenOffset);
      var c := if fs.scan.token == LineCommentTrivia then NewLineAndIndent(env, fs.indentLevel) else [];
      var fs2 := ScanNextF(text, fs1);
      ScanNextTokenOffset(text, fs1);
      EditsEndByWeaken(fs2.edits, fs.scan.tokenOffset, fs.scan.pos);
      EditsEndByWeaken(fs2.edits, fs.scan.tokenOffset, fs2.scan.tokenOffset);
      CommentLoopInOrder(env, fs2, fs.scan.pos, c);
    }
  }

  /** One pass of the main loop keeps the loop invariant. */
  lemma FormatStepInOrder(env: Env, fs: FormatState)
    requires ScanOk(env.text, fs.scan) && fs.scan.token != EOF && LoopInvariant(env.text, fs)
    ensures LoopInvariant(env.text, FormatStepF(env, fs))
  {
    var text := env.text;
    var first := fs.scan.token;
    var fs1 := ScanNextF(text, fs);
    ScanNextTokenOffset(text, fs);
    EditsEndByWeaken(fs.edits, fs.scan.tokenOffset, fs.scan.pos);
    EditsEndByWeaken(fs.edits, fs.scan.tokenOffset, fs1.scan.tokenOffset);
    var (fs2, firstTokenEnd, content) := CommentLoopF(env, fs1, fs.scan.pos, []);
    CommentLoopInOrder(env, fs1, fs.scan.pos, []);
    var d := Decide(env, first, fs2.scan.token, fs2.lineBreak, fs2.indentLevel, fs2.hasError, content);
    AddEditInOrder(text, fs2.(indentLevel := d.indentLevel, hasError := d.hasError), d.content,
                   firstTokenEnd, fs2.scan.tokenOffset);
  }

  /** The main loop keeps the loop invariant to the end. */
  lemma {:induction false} FormatLoopInOrder(env: Env, fs: FormatState)
    requires ScanOk(env.text, fs.scan) && LoopInvariant(env.text, fs)
    ensures EditsInOrder(env.text, FormatLoopF(env, fs).edits) && EditsBlank(env.text, FormatLoopF(env, fs).edits)
    decreases Rank(env.text, fs.scan)
  {
    if fs.scan.token != EOF {
      FormatStepInOrder(env, fs);
      FormatLoopInOrder(env, FormatStepF(env, fs));
    }
  }

  /** The set-up establishes the loop invariant. */
  lemma FormatStartInOrder(env: Env)
    ensures LoopInvariant(env.text, FormatStart(env))
  {
    var fs0 := InitialFormatState();
    assert ScanOk(env.text, fs0.scan);
    var fs1 := ScanNextF(env.text, fs0);
    ScanNextTokenOffset(env.text, fs0);
    if fs1.scan.token != EOF {
      AddEditInOrder(env.text, fs1, Copies(env.indentValue, 0), 0, fs1.scan.tokenOffset);
    }
  }

  /** FormatLibConfigDocument returns edits that lie in the document, sorted by offset and
      pairwise disjoint, and that replace only whitespace and line breaks: every token and
      comment of the document is kept. */
  lemma FormatEditsInOrder(text: seq<int>, options: Options)
    ensures EditsInOrder(text, FormatF(text, options)) && EditsBlank(text, FormatF(text, options))
  {
    var env := EnvOf(text, options);
    FormatStartInOrder(env);
    FormatLoopInOrder(env, FormatStart(env));
  }

  // ---------------------------------------------------------------------------------------
  // The separator chosen for each gap

  /** After an opener, anything but a closer goes on a new line one level deeper. */
  lemma OpenerIndents(env: Env, first: SyntaxKind, second: SyntaxKind, lineBreak: bool, level: int,
                      hasError: bool, content: seq<int>)
    requires IsOpener(first) && !IsCloser(second)
    ensures Decide(env, first, second, lineBreak, level, hasError, content) ==
            Decision(NewLineAndIndent(env, level + 1), level + 1, hasError)
  {
  }

  /** A closer goes on a new line one level shallower, unless it closes an empty pair, which
      stays as written. */
  lemma CloserDedents(env: Env, first: SyntaxKind, second: SyntaxKind, lineBreak: bool, level: int,
                      hasError: bool, content: seq<int>)
    requires IsCloser(second)
    ensures first != OpenerOf(second) ==>
            Decide(env, first, second, lineBreak, level, hasError, content) ==
            Decision(NewLineAndIndent(env, level - 1), level - 1, hasError)
    ensures first == OpenerOf(second) ==>
            Decide(env, first, second, lineBreak, level, hasError, content) == Decision(content, level, hasError)
  {
  }

  /** After a comma, a semicolon, a colon or a line comment, the next token (unless a closer)
      starts a new line at the same level. */
  lemma SeparatorBreaksLine(env: Env, first: SyntaxKind, second: SyntaxKind, lineBreak: bool, level: int,
                            hasError: bool, content: seq<int>)
    requires first == CommaToken || first == SemicolonToken || first == ColonToken || first == LineCommentTrivia
    requires !IsCloser(second)
    ensures Decide(env, first, second, lineBreak, level, hasError, content) ==
            Decision(NewLineAndIndent(env, level), level, hasError)
  {
  }

  /** A setting name and `=` are followed by one space, unless a comment on the next line
      follows them. */
  lemma NameAndEqualsSpaced(env: Env, first: SyntaxKind, second: SyntaxKind, lineBreak: bool, level: int,
                            hasError: bool, content: seq<int>)
    requires first == PropertyName || first == EqualToken
    requires !IsCloser(second) && !(lineBreak && IsComment(second))
    ensures Decide(env, first, second, lineBreak, level, hasError, content) == Decision([Space], level, hasError)
  {
  }

  /** A value (or a closer) followed by anything but a comma, a comment, a closer or the end
      marks the gap as broken, so it is left alone; so does an unknown token. */
  lemma BrokenGapFlagged(env: Env, first: SyntaxKind, second: SyntaxKind, lineBreak: bool, level: int,
                         hasError: bool, content: seq<int>)
    requires first in {StringLiteral, TrueKeyword, FalseKeyword, NumericLiteral, CloseBraceToken,
                       CloseBracketToken, CloseParenToken, Unknown}
    requires !IsCloser(second) && !IsComment(second) && second != CommaToken && second != EOF
    requires first == StringLiteral ==> second != ColonToken
    ensures Decide(env, first, second, lineBreak, level, hasError, content).hasError
  {
  }

  /** Every gap keeps its error flag once set, and moves the indent level by at most one. */
  lemma DecideBounds(env: Env, first: SyntaxKind, second: SyntaxKind, lineBreak: bool, level: int,
                     hasError: bool, content: seq<int>)
    ensures var d := Decide(env, first, second, lineBreak, level, hasError, content);
      (hasError ==> d.hasError) && level - 1 <= d.indentLevel <= level + 1
  {
    if !IsCloser(second) {
      ByFirstBounds(env, first, second, lineBreak, level, hasError, content);
    }
  }

  lemma ByFirstBounds(env: Env, first: SyntaxKind, second: SyntaxKind, lineBreak: bool, level: int,
                      hasError: bool, content: seq<int>)
    ensures var d := DecideByFirst(env, first, second, lineBreak, level, hasError, content);
      (hasError ==> d.hasError) && level <= d.indentLevel <= level + 1
  {
    match first
    case OpenBracketToken =>
    case OpenBraceToken =>
    case OpenParenToken =>
    case _ =>
  }

  /** A flagged gap gets no edit. */
  lemma FlaggedGapUnedited(text: seq<int>, fs: FormatState, content: seq<int>, start: int, end: int)
    requires fs.hasError
    ensures AddEditF(text, fs, content, start, end) == fs
  {
  }

  /** An empty document gets no edits. */
  lemma EmptyDocumentUnedited(text: seq<int>, options: Options)
    requires |text| == 0
    ensures FormatF(text, options) == []
  {
    var env := EnvOf(text, options);
    var fs0 := InitialFormatState();
    ScanNextAtEnd(Rev, text, fs0.scan);
    assert FormatStart(env).scan.token == EOF;
  }
}
