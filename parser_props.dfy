/** Properties of the diagnostics parser's functions, and the loop of _parseArray as written. */
module ParserProperties {
  import opened Kinds
  import opened Chars
  import opened ScannerSpec
  import opened ParserSpec

  /** _scanNext moves the scanner exactly as scanNextNonTrivia would: the parser's own loop over
      trivia only adds the reports and the comment ranges. */
  lemma {:induction false} ScanNextIsNonTriviaScan(rev: Revision, text: seq<int>, ps: ParserState)
    requires ScanOk(text, ps.scan)
    ensures ScanNextP(rev, text, ps).scan == ScanNonTriviaSpec(rev, text, ps.scan)
    decreases |text| + 2 - ps.scan.pos
  {
    var ps1 := ScanTokenP(rev, text, ps);
    ScanTokenFacts(rev, text, ps);
    if IsTrivia(ps1.scan.token) {
      ScanNextIsNonTriviaScan(rev, text, ps1);
    }
  }

  /** The loop in _error stops at offset 0 or on a character `\s` does not match, and every
      character it stepped back over is matched by `\s`. */
  lemma {:induction false} BackOverSpaceStops(text: seq<int>, i: int)
    requires 0 <= i
    ensures var r := BackOverSpace(text, i);
      (r == 0 || !IsRegExpSpace(CharAt(text, r))) &&
      (forall k :: r < k <= i ==> IsRegExpSpace(CharAt(text, k)))
    decreases i
  {
    if i > 0 && IsRegExpSpace(CharAt(text, i)) {
      BackOverSpaceStops(text, i - 1);
    }
  }

  /** A skip with nothing to pass ends on a token of `until` or at EOF, without consuming it:
      after a missing value the parser resumes at the next `;`. */
  lemma {:induction false} SkipUntilStops(rev: Revision, text: seq<int>, ps: ParserState, until: seq<SyntaxKind>)
    requires ScanOk(text, ps.scan)
    ensures var r := SkipP(rev, text, ps, [], until);
      r.scan.token == EOF || r.scan.token in until
    decreases Rank(text, ps.scan)
  {
    var token := ps.scan.token;
    if token != EOF && token !in until {
      SkipUntilStops(rev, text, ScanNextP(rev, text, ps), until);
    }
  }

  /** A trivia kind in a skip set never matches, since _scanNext never stops on trivia. */
  lemma {:induction false} SkipIgnoresLineBreak(rev: Revision, text: seq<int>, ps: ParserState,
                                                after: seq<SyntaxKind>, until: seq<SyntaxKind>)
    requires ScanOk(text, ps.scan) && !IsTrivia(ps.scan.token)
    ensures SkipP(rev, text, ps, after + [LineBreakTrivia], until) == SkipP(rev, text, ps, after, until)
    decreases Rank(text, ps.scan)
  {
    var token := ps.scan.token;
    assert token in after + [LineBreakTrivia] <==> token in after by {
      assert IsTrivia(LineBreakTrivia);
    }
    if token != EOF && token !in after && token !in until {
      SkipIgnoresLineBreak(rev, text, ScanNextP(rev, text, ps), after, until);
    }
  }

  /** So the LineBreakTrivia in _parseTerminator's skip set has no effect: after a missing
      terminator the parser skips just past the next `;`, across line ends. */
  lemma TerminatorSkipsPastSemicolon(rev: Revision, text: seq<int>, ps: ParserState)
    requires ScanOk(text, ps.scan) && !IsTrivia(ps.scan.token)
    ensures ErrorP(rev, text, ps, SemicolonExpectedMessage, ErrorCode.SemicolonExpected, [SemicolonToken, LineBreakTrivia], []) ==
            ErrorP(rev, text, ps, SemicolonExpectedMessage, ErrorCode.SemicolonExpected, [SemicolonToken], [])
  {
    var ps1 := ErrorAt(text, ps, SemicolonExpectedMessage, ErrorCode.SemicolonExpected);
    SkipIgnoresLineBreak(rev, text, ps1, [SemicolonToken], []);
    assert [SemicolonToken] + [LineBreakTrivia] == [SemicolonToken, LineBreakTrivia];
  }

  /** An empty document has no problems and no comments. */
  lemma EmptyDocument(rev: Revision, text: seq<int>)
    requires |text| == 0
    ensures var r := ParseDocumentP(rev, text); r.problems == [] && r.commentRanges == []
  {
    var ps0 := InitialParserState();
    ScanNextAtEndOfText(rev, text, ps0);
    var ps1 := ScanNextP(rev, text, ps0);
    assert DocumentLoopP(rev, text, ps1) == ps1;
  }

  /** At the end of the text _scanNext finds EOF, reports nothing and records no comment. */
  lemma ScanNextAtEndOfText(rev: Revision, text: seq<int>, ps: ParserState)
    requires ScanOk(text, ps.scan) && |text| <= ps.scan.pos
    ensures ScanNextP(rev, text, ps) == ps.(scan := TokenStart(ps.scan).(tokenOffset := |text|, token := EOF))
  {
    ScanNextAtEnd(rev, text, ps.scan);
    var s := ScanNextSpec(rev, text, ps.scan);
    assert s.token == EOF && s.scanError == ScanError.None;
    assert CheckScanError(text, ps.(scan := s)) == ps.(scan := s);
    assert !IsComment(s.token) && !IsTrivia(s.token);
  }

  // ---------------------------------------------------------------------------------------
  // _parseArray's loop as written

  /** One pass of _parseArray's loop as written, on the state, the first element's kind and
      `nextToken`, the token read after the last element. After a missing comma is reported,
      `nextToken` is not read again. */
  function ArrayStepAsWritten(rev: Revision, text: seq<int>, ps: ParserState, firstKind: SettingKind,
                              nextToken: SyntaxKind): (r: (ParserState, SettingKind, SyntaxKind))
    requires ScanOk(text, ps.scan) && (nextToken == CommaToken ==> ps.scan.token == CommaToken)
    ensures ScanOk(text, r.0.scan) && (r.2 == CommaToken ==> r.0.scan.token == CommaToken)
  {
    if nextToken != CommaToken then
      var ps1 := ErrorP(rev, text, ps, CommaExpectedMessage, ErrorCode.CommaExpected,
                        [CloseBracketToken], [CommaToken]);
      (ps1, firstKind, nextToken)
    else
      var (ps1, first) := ArrayEntryP(rev, text, ps, firstKind);
      (ps1, first, ps1.scan.token)
  }

  /** Standing on a comma with a stale `nextToken` that is not one, a pass reports (at most once)
      and does not move; the pass after it changes nothing at all. */
  lemma ArrayAsWrittenStallsAtComma(rev: Revision, text: seq<int>, ps: ParserState, firstKind: SettingKind,
                                    nextToken: SyntaxKind)
    requires ScanOk(text, ps.scan) && ps.scan.token == CommaToken && nextToken != CommaToken
    ensures var s1 := ArrayStepAsWritten(rev, text, ps, firstKind, nextToken);
      s1.0.scan == ps.scan && s1.2 == nextToken &&
      ArrayStepAsWritten(rev, text, s1.0, s1.1, s1.2) == s1
  {
    var ps1 := ErrorAt(text, ps, CommaExpectedMessage, ErrorCode.CommaExpected);
    assert ps1.lastProblemOffset == ErrorRange(text, ps.scan).0 && |ps1.problems| > 0;
    assert ErrorAt(text, ps1, CommaExpectedMessage, ErrorCode.CommaExpected) == ps1;
  }

  /** The loop as written never leaves once a missing comma's skip stops before a comma (as in
      `x = [1 2, 3];`): two passes later it is at a state where the loop's condition holds (the
      token is a comma) and a pass changes nothing. */
  lemma ArrayLoopAsWrittenNeverLeaves(rev: Revision, text: seq<int>, ps: ParserState, firstKind: SettingKind)
    requires ScanOk(text, ps.scan)
    requires ps.scan.token != CommaToken
    requires ErrorP(rev, text, ps, CommaExpectedMessage, ErrorCode.CommaExpected,
                    [CloseBracketToken], [CommaToken]).scan.token == CommaToken
    ensures var s1 := ArrayStepAsWritten(rev, text, ps, firstKind, ps.scan.token);
      var s2 := ArrayStepAsWritten(rev, text, s1.0, s1.1, s1.2);
      s2.0.scan.token == CommaToken && s2.0.scan.token != CloseBracketToken && s2.0.scan.token != EOF &&
      ArrayStepAsWritten(rev, text, s2.0, s2.1, s2.2) == s2
  {
    var s1 := ArrayStepAsWritten(rev, text, ps, firstKind, ps.scan.token);
    ArrayAsWrittenStallsAtComma(rev, text, s1.0, s1.1, s1.2);
  }

  /** In the corrected loop (ArrayLoopP), the same pass re-reads the token it stands on and
      goes on to the next element. */
  lemma ArrayLoopLeavesAfterMissingComma(rev: Revision, text: seq<int>, ps: ParserState, firstKind: SettingKind)
    requires ScanOk(text, ps.scan)
    requires ps.scan.token != CommaToken && ps.scan.token != CloseBracketToken && ps.scan.token != EOF
    ensures var ps1 := ErrorP(rev, text, ps, CommaExpectedMessage, ErrorCode.CommaExpected,
                              [CloseBracketToken], [CommaToken]);
      Rank(text, ps1.scan) < Rank(text, ps.scan) &&
      ArrayLoopP(rev, text, ps, firstKind) == ArrayLoopP(rev, text, ps1, firstKind)
  {
  }
}
