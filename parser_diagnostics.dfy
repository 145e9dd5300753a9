/** The diagnostics parser's reports and error recovery, stated over the tokens the parser reads:
    which problem each kind of malformed input produces, at which token, and at which token
    parsing resumes. */
module ParserDiagnostics {
  import opened Kinds
  import opened Chars
  import opened Wrappers
  import opened ScannerSpec
  import opened ParserSpec
  import opened ParserProperties
  import opened Sequences

  // ---------------------------------------------------------------------------------------
  // The tokens the parser reads

  /** _scanNext's move of the scanner keeps it well-formed, and lowers the Rank while not at
      EOF. */
  lemma NonTriviaScanOk(rev: Revision, text: seq<int>, s: ScannerState)
    requires ScanOk(text, s)
    ensures ScanOk(text, ScanNonTriviaSpec(rev, text, s))
    ensures s.token != EOF ==> Rank(text, ScanNonTriviaSpec(rev, text, s)) < Rank(text, s)
  {
    ScanNextIsNonTriviaScan(rev, text, ParserState(s, [], -1, []));
  }

  /** `f` applied `m` times from `s`, for a step that keeps the scanner well-formed. */
  function Iterate(text: seq<int>, f: ScannerState --> ScannerState, s: ScannerState, m: nat): (r: ScannerState)
    requires ScanOk(text, s)
    requires forall x :: ScanOk(text, x) ==> f.requires(x) && ScanOk(text, f(x))
    ensures ScanOk(text, r)
    decreases m
  {
    if m == 0 then s else Iterate(text, f, f(s), m - 1)
  }

  /** `a` steps and then `b` more are `c`, their sum. */
  lemma {:induction false} IterateAdd(text: seq<int>, f: ScannerState --> ScannerState, s: ScannerState,
                                      a: nat, b: nat, c: nat)
    requires ScanOk(text, s) && c == a + b
    requires forall x :: ScanOk(text, x) ==> f.requires(x) && ScanOk(text, f(x))
    ensures Iterate(text, f, Iterate(text, f, s, a), b) == Iterate(text, f, s, c)
    decreases a
  {
    if a > 0 {
      IterateAdd(text, f, f(s), a - 1, b, c - 1);
    }
  }

  /** _scanNext's move of the scanner, as a step. */
  function NextStep(rev: Revision, text: seq<int>): (f: ScannerState --> ScannerState)
    ensures forall x :: ScanOk(text, x) ==> f.requires(x) && ScanOk(text, f(x))
  {
    NextStepOk(rev, text);
    x requires ScanOk(text, x) => ScanNonTriviaSpec(rev, text, x)
  }

  /** The step keeps the scanner well-formed. */
  lemma NextStepOk(rev: Revision, text: seq<int>)
    ensures forall x :: ScanOk(text, x) ==> ScanOk(text, ScanNonTriviaSpec(rev, text, x))
  {
    forall x | ScanOk(text, x) ensures ScanOk(text, ScanNonTriviaSpec(rev, text, x)) {
      NonTriviaScanOk(rev, text, x);
    }
  }

  /** The scanner's state after `m` more calls of _scanNext from `s`: NextTokens(s, m).token is
      the m-th token the parser reads after the one it stands on. */
  function NextTokens(rev: Revision, text: seq<int>, s: ScannerState, m: nat): (r: ScannerState)
    requires ScanOk(text, s)
    ensures ScanOk(text, r)
  {
    Iterate(text, NextStep(rev, text), s, m)
  }

  /** Reading `m + 1` tokens is reading one, then `m` more. */
  lemma NextTokensStep(rev: Revision, text: seq<int>, s: ScannerState, m: nat)
    requires ScanOk(text, s)
    ensures ScanOk(text, ScanNonTriviaSpec(rev, text, s))
    ensures NextTokens(rev, text, s, m + 1) == NextTokens(rev, text, ScanNonTriviaSpec(rev, text, s), m)
  {
    NonTriviaScanOk(rev, text, s);
  }

  /** Reading `a` tokens and then `b` more is reading `c`, their sum. */
  lemma NextTokensAdd(rev: Revision, text: seq<int>, s: ScannerState, a: nat, b: nat, c: nat)
    requires ScanOk(text, s) && c == a + b
    ensures NextTokens(rev, text, NextTokens(rev, text, s, a), b) == NextTokens(rev, text, s, c)
  {
    IterateAdd(text, NextStep(rev, text), s, a, b, c);
  }

  /** A token that a skip passes over: not EOF and in neither skip set. */
  predicate Passed(token: SyntaxKind, after: seq<SyntaxKind>, until: seq<SyntaxKind>) {
    token != EOF && token !in after && token !in until
  }

  /** Where a skip that has passed `n` tokens from `s` stops, on the `n`-th: at EOF, just after
      it when it is in `after`, and on it when it is only in `until`. */
  predicate SkipEndsAt(rev: Revision, text: seq<int>, s: ScannerState, n: nat,
                       after: seq<SyntaxKind>, until: seq<SyntaxKind>, r: ScannerState)
    requires ScanOk(text, s)
  {
    var last := NextTokens(rev, text, s, n);
    (last.token == EOF && r == last) ||
    (last.token != EOF && last.token in after && r == NextTokens(rev, text, s, n + 1)) ||
    (last.token != EOF && last.token !in after && last.token in until && r == last)
  }

  /** A skip from `s` passes over the first `n` tokens it reads and stops, leaving the scanner
      at `r`, as SkipEndsAt says. */
  predicate SkipsOver(rev: Revision, text: seq<int>, s: ScannerState, n: nat, after: seq<SyntaxKind>,
                      until: seq<SyntaxKind>, r: ScannerState)
    requires ScanOk(text, s)
  {
    (forall m :: 0 <= m < n ==> Passed(NextTokens(rev, text, s, m).token, after, until)) &&
    SkipEndsAt(rev, text, s, n, after, until, r)
  }

  /** The skip of _error passes over the tokens that are neither EOF nor in a skip set, and stops
      at the first that is. */
  lemma {:induction false} SkipStops(rev: Revision, text: seq<int>, ps: ParserState,
                                     after: seq<SyntaxKind>, until: seq<SyntaxKind>) returns (n: nat)
    requires ScanOk(text, ps.scan)
    ensures SkipsOver(rev, text, ps.scan, n, after, until, SkipP(rev, text, ps, after, until).scan)
    decreases Rank(text, ps.scan)
  {
    if !Passed(ps.scan.token, after, until) {
      n := 0;
      SkipStopsHere(rev, text, ps, after, until);
    } else {
      var ps1 := SkipPasses(rev, text, ps, after, until);
      var n1 := SkipStops(rev, text, ps1, after, until);
      n := n1 + 1;
      SkipShift(rev, text, ps.scan, n1, after, until, SkipP(rev, text, ps1, after, until).scan);
    }
  }

  /** A skip standing on a token it does not pass over. */
  lemma SkipStopsHere(rev: Revision, text: seq<int>, ps: ParserState, after: seq<SyntaxKind>,
                      until: seq<SyntaxKind>)
    requires ScanOk(text, ps.scan) && !Passed(ps.scan.token, after, until)
    ensures SkipsOver(rev, text, ps.scan, 0, after, until, SkipP(rev, text, ps, after, until).scan)
  {
    NextTokensStep(rev, text, ps.scan, 0);
    ScanNextIsNonTriviaScan(rev, text, ps);
  }

  /** A skip standing on a token it passes over reads the next one and goes on from there. */
  lemma SkipPasses(rev: Revision, text: seq<int>, ps: ParserState, after: seq<SyntaxKind>,
                   until: seq<SyntaxKind>) returns (ps1: ParserState)
    requires ScanOk(text, ps.scan) && Passed(ps.scan.token, after, until)
    ensures ScanOk(text, ps1.scan) && Rank(text, ps1.scan) < Rank(text, ps.scan)
    ensures ps1.scan == NextTokens(rev, text, ps.scan, 1)
    ensures SkipP(rev, text, ps, after, until) == SkipP(rev, text, ps1, after, until)
  {
    ps1 := ScanNextP(rev, text, ps);
    ScanNextIsNonTriviaScan(rev, text, ps);
    NextTokensStep(rev, text, ps.scan, 0);
  }

  /** What a skip does from the token after a passed one, counted from the passed one. */
  lemma SkipShift(rev: Revision, text: seq<int>, s: ScannerState, n1: nat, after: seq<SyntaxKind>,
                  until: seq<SyntaxKind>, r: ScannerState)
    requires ScanOk(text, s) && Passed(s.token, after, until)
    requires SkipsOver(rev, text, NextTokens(rev, text, s, 1), n1, after, until, r)
    ensures SkipsOver(rev, text, s, n1 + 1, after, until, r)
  {
    var s1 := NextTokens(rev, text, s, 1);
    forall m | 0 <= m < n1 + 1
      ensures Passed(NextTokens(rev, text, s, m).token, after, until)
    {
      if m > 0 {
        NextTokensAdd(rev, text, s, 1, m - 1, m);
      } else {
        NextTokensZero(rev, text, s);
      }
    }
    NextTokensAdd(rev, text, s, 1, n1, n1 + 1);
    NextTokensAdd(rev, text, s, 1, n1 + 1, n1 + 2);
  }

  /** Reading no token leaves the scanner where it is. */
  lemma NextTokensZero(rev: Revision, text: seq<int>, s: ScannerState)
    requires ScanOk(text, s)
    ensures NextTokens(rev, text, s, 0) == s
  {
  }

  /** Parsing resumes just after the first `t` read from `s` on (the `n`-th token), or at EOF
      when there is none. */
  predicate ResumesPast(rev: Revision, text: seq<int>, s: ScannerState, n: nat, resume: ScannerState,
                        t: SyntaxKind)
    requires ScanOk(text, s)
  {
    (forall m :: 0 <= m < n ==> NextTokens(rev, text, s, m).token != EOF && NextTokens(rev, text, s, m).token != t) &&
    ((NextTokens(rev, text, s, n).token == EOF && resume == NextTokens(rev, text, s, n)) ||
     (NextTokens(rev, text, s, n).token == t && resume == NextTokens(rev, text, s, n + 1)))
  }

  /** A skip past the first `;` (with nothing to stop before) resumes after it. */
  lemma SkipPastSemicolon(rev: Revision, text: seq<int>, ps: ParserState) returns (n: nat)
    requires ScanOk(text, ps.scan)
    ensures ResumesPast(rev, text, ps.scan, n, SkipP(rev, text, ps, [SemicolonToken], []).scan, SemicolonToken)
  {
    n := SkipStops(rev, text, ps, [SemicolonToken], []);
    forall m | 0 <= m < n
      ensures NextTokens(rev, text, ps.scan, m).token != SemicolonToken
    {
      assert Passed(NextTokens(rev, text, ps.scan, m).token, [SemicolonToken], []);
    }
  }

  // ---------------------------------------------------------------------------------------
  // Reports

  /** The problem _error records for the token of `s`. */
  function ErrorDiagnostic(text: seq<int>, s: ScannerState, message: string, code: ErrorCode): Diagnostic
    requires ScanOk(text, s)
  {
    var range := ErrorRange(text, s);
    Diagnostic(range.0, range.1, message, code)
  }

  /** `d` was reported on the way from `ps` to `r`: it follows ps's problems, unless the last of
      those already started at d's offset, when _errorAtRange drops it. */
  predicate Reported(ps: ParserState, r: ParserState, d: Diagnostic) {
    if |ps.problems| == 0 || d.start != ps.lastProblemOffset then ps.problems + [d] <= r.problems
    else ps.problems <= r.problems
  }

  /** _error reports at the current token and then only appends. */
  lemma ErrorReports(rev: Revision, text: seq<int>, ps: ParserState, message: string, code: ErrorCode,
                     after: seq<SyntaxKind>, until: seq<SyntaxKind>, r: ParserState)
    requires ScanOk(text, ps.scan)
    requires Advances(text, ErrorAt(text, ps, message, code), r)
    ensures Reported(ps, r, ErrorDiagnostic(text, ps.scan, message, code))
  {
  }

  /** A setting that does not start with a name: PropertyExpected is reported at its first
      token, and parsing resumes just after the next `;`, or at EOF. */
  lemma SettingWithoutName(rev: Revision, text: seq<int>, ps: ParserState) returns (n: nat)
    requires ScanOk(text, ps.scan) && ps.scan.token != PropertyName
    ensures var r := ParseSettingP(rev, text, ps);
      Reported(ps, r, ErrorDiagnostic(text, ps.scan, PropertyExpectedMessage, ErrorCode.PropertyExpected)) &&
      ResumesPast(rev, text, ps.scan, n, r.scan, SemicolonToken)
  {
    var e := ErrorAt(text, ps, PropertyExpectedMessage, ErrorCode.PropertyExpected);
    var r := SkipP(rev, text, e, [SemicolonToken], []);
    assert ParseSettingP(rev, text, ps) == r;
    ErrorReports(rev, text, ps, PropertyExpectedMessage, ErrorCode.PropertyExpected, [SemicolonToken], [], r);
    n := SkipPastSemicolon(rev, text, e);
  }

  /** A name not followed by `=` or `:`: ColonExpected is reported at the token after the name,
      and parsing resumes just after the next `;`, or at EOF. */
  lemma SettingWithoutSetter(rev: Revision, text: seq<int>, ps: ParserState) returns (n: nat)
    requires ScanOk(text, ps.scan) && ps.scan.token == PropertyName
    requires NextTokens(rev, text, ps.scan, 1).token != EqualToken
    requires NextTokens(rev, text, ps.scan, 1).token != ColonToken
    ensures var s1 := NextTokens(rev, text, ps.scan, 1);
      var r := ParseSettingP(rev, text, ps);
      Reported(ScanNextP(rev, text, ps), r, ErrorDiagnostic(text, s1, ColonExpectedMessage, ErrorCode.ColonExpected)) &&
      ResumesPast(rev, text, s1, n, r.scan, SemicolonToken)
  {
    var ps1 := ScanNextP(rev, text, ps);
    ScanNextIsNonTriviaScan(rev, text, ps);
    assert ps1.scan == NextTokens(rev, text, ps.scan, 1);
    var e := ErrorAt(text, ps1, ColonExpectedMessage, ErrorCode.ColonExpected);
    var r := SkipP(rev, text, e, [SemicolonToken], []);
    assert ParseSettingP(rev, text, ps) == r;
    ErrorReports(rev, text, ps1, ColonExpectedMessage, ErrorCode.ColonExpected, [SemicolonToken], [], r);
    n := SkipPastSemicolon(rev, text, e);
  }

  /** A value not followed by `;`: SemicolonExpected is reported at the token after it, and
      parsing resumes just after the next `;`, or at EOF (line ends do not stop the skip). */
  lemma TerminatorMissing(rev: Revision, text: seq<int>, ps: ParserState) returns (n: nat)
    requires ScanOk(text, ps.scan)
    requires NextTokens(rev, text, ps.scan, 1).token != SemicolonToken
    ensures var s1 := NextTokens(rev, text, ps.scan, 1);
      var r := ParseTerminatorP(rev, text, ps);
      Reported(ScanNextP(rev, text, ps), r, ErrorDiagnostic(text, s1, SemicolonExpectedMessage, ErrorCode.SemicolonExpected)) &&
      ResumesPast(rev, text, s1, n, r.scan, SemicolonToken)
  {
    var ps1 := ScanNextP(rev, text, ps);
    ScanNextIsNonTriviaScan(rev, text, ps);
    assert ps1.scan == NextTokens(rev, text, ps.scan, 1);
    TerminatorSkipsPastSemicolon(rev, text, ps1);
    var e := ErrorAt(text, ps1, SemicolonExpectedMessage, ErrorCode.SemicolonExpected);
    var r := SkipP(rev, text, e, [SemicolonToken], []);
    assert ParseTerminatorP(rev, text, ps) == r;
    ErrorReports(rev, text, ps1, SemicolonExpectedMessage, ErrorCode.SemicolonExpected, [SemicolonToken], [], r);
    n := SkipPastSemicolon(rev, text, e);
  }

  /** The loop of _parseList after a missing comma stops on the `n`-th token read from `s`, at
      `r`: at EOF, or on a `)` read right after a `)` or `,`. */
  predicate ListStopsAt(rev: Revision, text: seq<int>, s: ScannerState, p: nat, r: ScannerState)
    requires ScanOk(text, s)
  {
    r == NextTokens(rev, text, s, p + 1) && StopsAfter(NextTokens(rev, text, s, p), r)
  }

  /** The loop stops on `r`, read right after `last`: at EOF, or on a `)` after a `)` or `,`. */
  predicate StopsAfter(last: ScannerState, r: ScannerState) {
    r.token == EOF || (r.token == CloseParenToken && Separates(last.token))
  }

  predicate Separates(token: SyntaxKind) {
    token == CloseParenToken || token == CommaToken
  }

  /** CommaExpected is reported at the token `ps` stands on, and the loop stops on the `p + 1`-th
      token read from there, in `r`. */
  predicate CommaRecovery(rev: Revision, text: seq<int>, ps: ParserState, p: nat, r: ParserState)
    requires ScanOk(text, ps.scan)
  {
    Reported(ps, r, ErrorDiagnostic(text, ps.scan, CommaExpectedMessage, ErrorCode.CommaExpected)) &&
    ListStopsAt(rev, text, ps.scan, p, r.scan)
  }

  /** What _parseList's loop does once `nextToken` is not a comma: report CommaExpected, skip
      past the next `)` or `,`, and go round again, until it stands on `)` or EOF. */
  function MissingCommaLoop(rev: Revision, text: seq<int>, ps: ParserState): (r: ParserState)
    requires ScanOk(text, ps.scan)
    decreases Rank(text, ps.scan)
  {
    if ps.scan.token == CloseParenToken || ps.scan.token == EOF then ps
    else
      var e := ErrorAt(text, ps, CommaExpectedMessage, ErrorCode.CommaExpected);
      MissingCommaLoop(rev, text, SkipP(rev, text, e, [CloseParenToken, CommaToken], []))
  }

  /** In _parseList's loop, once the token read after a value is not a comma, `nextToken` is not
      read again: CommaExpected is reported at the current token, and the loop goes on skipping
      past the next `)` or `,` and reporting, parsing no value, until it stands on a `)` read
      right after a `)` or `,`, or at EOF. */
  lemma ListAfterMissingComma(rev: Revision, text: seq<int>, ps: ParserState, nextToken: SyntaxKind)
    returns (p: nat)
    requires ScanOk(text, ps.scan) && nextToken != CommaToken
    requires ps.scan.token != CloseParenToken && ps.scan.token != EOF
    ensures CommaRecovery(rev, text, ps, p, ListLoopP(rev, text, ps, nextToken))
  {
    ListLoopIsMissingCommaLoop(rev, text, ps, nextToken);
    var r;
    p, r := MissingCommaRecovers(rev, text, ps);
  }

  /** Once `nextToken` is not a comma, _parseList's loop is MissingCommaLoop. */
  lemma {:induction false} ListLoopIsMissingCommaLoop(rev: Revision, text: seq<int>, ps: ParserState,
                                                      nextToken: SyntaxKind)
    requires ScanOk(text, ps.scan) && nextToken != CommaToken
    ensures ListLoopP(rev, text, ps, nextToken) == MissingCommaLoop(rev, text, ps)
    decreases Rank(text, ps.scan)
  {
    if ps.scan.token != CloseParenToken && ps.scan.token != EOF {
      var e := ErrorAt(text, ps, CommaExpectedMessage, ErrorCode.CommaExpected);
      var ps1 := SkipP(rev, text, e, [CloseParenToken, CommaToken], []);
      ListLoopMissingComma(rev, text, ps, nextToken);
      ListLoopIsMissingCommaLoop(rev, text, ps1, nextToken);
    }
  }

  /** MissingCommaLoop from a token that is neither `)` nor EOF reports CommaExpected there and
      stops as ListStopsAt says. */
  lemma {:induction false} MissingCommaRecovers(rev: Revision, text: seq<int>, ps: ParserState)
    returns (p: nat, r: ParserState)
    requires ScanOk(text, ps.scan)
    requires ps.scan.token != CloseParenToken && ps.scan.token != EOF
    ensures r == MissingCommaLoop(rev, text, ps)
    ensures CommaRecovery(rev, text, ps, p, r)
    decreases Rank(text, ps.scan), 1
  {
    var ps1, j := CommaErrorSkips(rev, text, ps);
    if ps1.scan.token == CloseParenToken || ps1.scan.token == EOF {
      p, r := j, ps1;
      CommaRecoveryStops(rev, text, ps, ps1, j);
    } else {
      p, r := MissingCommaRecoversAfter(rev, text, ps, ps1, j);
    }
  }

  /** The loop goes round again from `ps1`, where the first pass from `ps` left it. */
  lemma {:induction false} MissingCommaRecoversAfter(rev: Revision, text: seq<int>, ps: ParserState,
                                                     ps1: ParserState, j: nat) returns (p: nat, r: ParserState)
    requires ScanOk(text, ps.scan) && ScanOk(text, ps1.scan) && Rank(text, ps1.scan) < Rank(text, ps.scan)
    requires ps1.scan.token != CloseParenToken && ps1.scan.token != EOF
    requires Reported(ps, ps1, ErrorDiagnostic(text, ps.scan, CommaExpectedMessage, ErrorCode.CommaExpected))
    requires MissingCommaLoop(rev, text, ps) == MissingCommaLoop(rev, text, ps1)
    requires PastEither(rev, text, ps.scan, j, [CloseParenToken, CommaToken], ps1.scan)
    ensures r == MissingCommaLoop(rev, text, ps)
    ensures CommaRecovery(rev, text, ps, p, r)
    decreases Rank(text, ps.scan), 0
  {
    var p1;
    p1, r := MissingCommaRecovers(rev, text, ps1);
    p := j + 1 + p1;
    CommaRecoveryShift(rev, text, ps, ps1, j + 1, p1, p, r);
  }

  /** A report at `ps` and a recovery from `ps1`, `j` tokens further on, make a recovery from
      `ps`. */
  lemma CommaRecoveryShift(rev: Revision, text: seq<int>, ps: ParserState, ps1: ParserState, j: nat, p1: nat,
                           p: nat, r: ParserState)
    requires ScanOk(text, ps.scan) && ScanOk(text, ps1.scan) && p == j + p1
    requires Reported(ps, ps1, ErrorDiagnostic(text, ps.scan, CommaExpectedMessage, ErrorCode.CommaExpected))
    requires ps1.scan == NextTokens(rev, text, ps.scan, j)
    requires CommaRecovery(rev, text, ps1, p1, r)
    ensures CommaRecovery(rev, text, ps, p, r)
  {
    ListStopsShift(rev, text, ps.scan, j, p1, p, r.scan);
  }

  /** One pass of the loop after a missing comma: the report, then the skip past the next `)`
      or `,`, which leaves the scanner on the `j + 1`-th token. */
  lemma CommaErrorSkips(rev: Revision, text: seq<int>, ps: ParserState) returns (ps1: ParserState, j: nat)
    requires ScanOk(text, ps.scan)
    requires ps.scan.token != CloseParenToken && ps.scan.token != EOF
    ensures ScanOk(text, ps1.scan) && Rank(text, ps1.scan) < Rank(text, ps.scan)
    ensures Reported(ps, ps1, ErrorDiagnostic(text, ps.scan, CommaExpectedMessage, ErrorCode.CommaExpected))
    ensures MissingCommaLoop(rev, text, ps) == MissingCommaLoop(rev, text, ps1)
    ensures PastEither(rev, text, ps.scan, j, [CloseParenToken, CommaToken], ps1.scan)
  {
    var after := [CloseParenToken, CommaToken];
    var e := ErrorAt(text, ps, CommaExpectedMessage, ErrorCode.CommaExpected);
    ps1 := SkipP(rev, text, e, after, []);
    ErrorReports(rev, text, ps, CommaExpectedMessage, ErrorCode.CommaExpected, after, [], ps1);
    j := SkipPastEither(rev, text, e, after);
  }

  /** A pass that leaves the scanner on `)` or EOF ends the loop. */
  lemma CommaRecoveryStops(rev: Revision, text: seq<int>, ps: ParserState, ps1: ParserState, j: nat)
    requires ScanOk(text, ps.scan) && ScanOk(text, ps1.scan)
    requires Reported(ps, ps1, ErrorDiagnostic(text, ps.scan, CommaExpectedMessage, ErrorCode.CommaExpected))
    requires PastEither(rev, text, ps.scan, j, [CloseParenToken, CommaToken], ps1.scan)
    requires ps1.scan.token == CloseParenToken || ps1.scan.token == EOF
    ensures MissingCommaLoop(rev, text, ps1) == ps1 && CommaRecovery(rev, text, ps, j, ps1)
  {
  }

  /** The loop of _parseList after a missing comma reports and skips, then goes round again. */
  lemma ListLoopMissingComma(rev: Revision, text: seq<int>, ps: ParserState, nextToken: SyntaxKind)
    requires ScanOk(text, ps.scan) && nextToken != CommaToken
    requires ps.scan.token != CloseParenToken && ps.scan.token != EOF
    ensures var e := ErrorAt(text, ps, CommaExpectedMessage, ErrorCode.CommaExpected);
      var ps1 := SkipP(rev, text, e, [CloseParenToken, CommaToken], []);
      ListLoopP(rev, text, ps, nextToken) == ListLoopP(rev, text, ps1, nextToken)
  {
    var after := [CloseParenToken, CommaToken];
    var e := ErrorAt(text, ps, CommaExpectedMessage, ErrorCode.CommaExpected);
    assert ErrorP(rev, text, ps, CommaExpectedMessage, ErrorCode.CommaExpected, after, []) == SkipP(rev, text, e, after, []);
  }

  /** The scanner `r` stands on the `p + 1`-th token read from `s`, and that is EOF or comes just
      after a token in `after`. */
  predicate PastEither(rev: Revision, text: seq<int>, s: ScannerState, p: nat, after: seq<SyntaxKind>,
                       r: ScannerState)
    requires ScanOk(text, s)
  {
    r == NextTokens(rev, text, s, p + 1) && (r.token == EOF || NextTokens(rev, text, s, p).token in after)
  }

  /** A skip past the first token in `after`, with nothing to stop before, from a token that is
      not EOF. */
  lemma SkipPastEither(rev: Revision, text: seq<int>, ps: ParserState, after: seq<SyntaxKind>) returns (p: nat)
    requires ScanOk(text, ps.scan) && ps.scan.token != EOF
    ensures PastEither(rev, text, ps.scan, p, after, SkipP(rev, text, ps, after, []).scan)
  {
    var k := SkipStops(rev, text, ps, after, []);
    p := SkipEndsPast(rev, text, ps.scan, k, after, SkipP(rev, text, ps, after, []).scan);
  }

  /** A skip with nothing to stop before ends just after a token in `after`, or at EOF. */
  lemma SkipEndsPast(rev: Revision, text: seq<int>, s: ScannerState, k: nat, after: seq<SyntaxKind>,
                     r: ScannerState) returns (p: nat)
    requires ScanOk(text, s) && s.token != EOF
    requires SkipEndsAt(rev, text, s, k, after, [], r)
    ensures PastEither(rev, text, s, p, after, r)
  {
    if NextTokens(rev, text, s, k).token == EOF {
      p := EofSkipEnd(rev, text, s, k, after, r);
    } else {
      p := k;
    }
  }

  /** A skip from a token that is not EOF ends on EOF only after reading at least one token. */
  lemma EofSkipEnd(rev: Revision, text: seq<int>, s: ScannerState, k: nat, after: seq<SyntaxKind>,
                   r: ScannerState) returns (p: nat)
    requires ScanOk(text, s) && s.token != EOF
    requires r == NextTokens(rev, text, s, k) && r.token == EOF
    ensures p + 1 == k
  {
    if k == 0 {
      NextTokensZero(rev, text, s);
    }
    p := k - 1;
  }

  /** Where the loop stops, counted from `j` tokens earlier. */
  lemma ListStopsShift(rev: Revision, text: seq<int>, s: ScannerState, j: nat, p1: nat, p: nat, r: ScannerState)
    requires ScanOk(text, s) && p == j + p1
    requires ListStopsAt(rev, text, NextTokens(rev, text, s, j), p1, r)
    ensures ListStopsAt(rev, text, s, p, r)
  {
    NextTokensAdd(rev, text, s, j, p1, p);
    NextTokensAdd(rev, text, s, j, p1 + 1, p + 1);
  }

  predicate IsScalarKind(k: SettingKind) {
    k == SettingKind.Number || k == SettingKind.Boolean || k == SettingKind.String
  }

  /** An element after a comma in _parseArray, reported at the token its value ends on: while
      the first element's kind is not a scalar one, ScalarExpected (the check looks at the first
      kind, not at the new element's); otherwise MismatchArrayType when the element's kind
      differs from the first's, and nothing when it agrees. An Invalid first kind takes the
      element's kind. */
  lemma ArrayEntryReports(rev: Revision, text: seq<int>, ps: ParserState, firstKind: SettingKind)
    requires ScanOk(text, ps.scan) && ps.scan.token == CommaToken
    ensures var (ps1, second) := ParseValueP(rev, text, ps, true);
      var (r, first) := ArrayEntryP(rev, text, ps, firstKind);
      first == (if firstKind == SettingKind.Invalid then second else firstKind) &&
      (!IsScalarKind(firstKind) ==>
         Reported(ps1, r, ErrorDiagnostic(text, ps1.scan, ScalarExpectedMessage, ErrorCode.ValueExpected))) &&
      (IsScalarKind(firstKind) && firstKind != second ==>
         Reported(ps1, r, ErrorDiagnostic(text, ps1.scan, MismatchArrayTypeMessage, ErrorCode.ValueExpected))) &&
      (IsScalarKind(firstKind) && firstKind == second ==> r == ScanNextP(rev, text, ps1))
  {
    var (ps1, second) := ParseValueP(rev, text, ps, true);
    var ps2 := ValidateArrayEntry(text, ps1, firstKind);
    var first := if firstKind == SettingKind.Invalid then second else firstKind;
    var ps3 := if first != second then ErrorAt(text, ps2, MismatchArrayTypeMessage, ErrorCode.ValueExpected) else ps2;
    var ps4 := ScanNextP(rev, text, ps3);
    assert ArrayEntryP(rev, text, ps, firstKind) == (ps4, first);
  }

  // ---------------------------------------------------------------------------------------
  // What _scanNext reports and records

  /** The states scanNext passes through in one call of _scanNext from `s`: every token up to
      and including the first that is not trivia. */
  function ScannedTokens(rev: Revision, text: seq<int>, s: ScannerState): (r: seq<ScannerState>)
    requires ScanOk(text, s)
    ensures |r| > 0 && !IsTrivia(r[|r| - 1].token)
    ensures forall k :: 0 <= k < |r| ==> ScanOk(text, r[k])
    ensures forall k :: 0 <= k < |r| - 1 ==> IsTrivia(r[k].token)
    decreases |text| + 2 - s.pos
  {
    var n := ScanNextSpec(rev, text, s);
    ScanStep(rev, text, s);
    if IsTrivia(n.token) then [n] + ScannedTokens(rev, text, n) else [n]
  }

  /** The ranges of the comment tokens among `tokens`, in order. */
  function CommentSpans(tokens: seq<ScannerState>): seq<Span> {
    if |tokens| == 0 then []
    else (if IsComment(tokens[0].token) then [Span(tokens[0].tokenOffset, tokens[0].pos)] else []) +
         CommentSpans(tokens[1..])
  }

  /** `d` is the report _checkScanError makes for the scan error of token `t`. */
  predicate ReportsScanError(text: seq<int>, t: ScannerState, d: Diagnostic) {
    ScanOk(text, t) && ScanErrorProblem(t.scanError) == Some((d.message, d.code)) &&
    (d.start, d.end) == ErrorRange(text, t)
  }

  /** `d` reports the scan error of one of `tokens`. */
  predicate ReportsSomeScanError(text: seq<int>, tokens: seq<ScannerState>, d: Diagnostic) {
    exists k :: 0 <= k < |tokens| && ReportsScanError(text, tokens[k], d)
  }

  /** Every problem of `problems` from index `from` on reports the scan error of one of `tokens`. */
  predicate OnlyScanErrors(text: seq<int>, tokens: seq<ScannerState>, from: int, problems: seq<Diagnostic>) {
    forall i :: from <= i < |problems| && 0 <= i ==> ReportsSomeScanError(text, tokens, problems[i])
  }

  /** Every token of `tokens` with a reportable scan error has a problem in `problems` starting
      where that error's range starts. */
  predicate ScanErrorsStart(text: seq<int>, tokens: seq<ScannerState>, problems: seq<Diagnostic>) {
    forall k :: 0 <= k < |tokens| && ScanOk(text, tokens[k]) && ScanErrorProblem(tokens[k].scanError).Some? ==>
      exists i :: 0 <= i < |problems| && problems[i].start == ErrorRange(text, tokens[k]).0
  }

  /** The first of the states one call of _scanNext passes through is the next token, and the
      rest are those of the call from there when that token is trivia. */
  lemma ScannedTokensFirst(rev: Revision, text: seq<int>, ps: ParserState)
    requires ScanOk(text, ps.scan)
    ensures var tokens := ScannedTokens(rev, text, ps.scan);
      var ps1 := ScanTokenP(rev, text, ps);
      ScanOk(text, ps1.scan) && Advances(text, ps, ps1) &&
      ps1.scan == tokens[0] && ps1.scan == ScanNextSpec(rev, text, ps.scan) &&
      (IsTrivia(ps1.scan.token) ==>
         tokens[1..] == ScannedTokens(rev, text, ps1.scan) && ScanNextP(rev, text, ps) == ScanNextP(rev, text, ps1)) &&
      (!IsTrivia(ps1.scan.token) ==> tokens == [ps1.scan] && ScanNextP(rev, text, ps) == ps1)
  {
    ScanStep(rev, text, ps.scan);
    ScanTokenFacts(rev, text, ps);
  }

  /** _scanNext stops on the last state it passes through: the first token that is not trivia. */
  lemma {:induction false} ScanNextStopsOnLast(rev: Revision, text: seq<int>, ps: ParserState)
    requires ScanOk(text, ps.scan)
    ensures var tokens := ScannedTokens(rev, text, ps.scan);
      ScanNextP(rev, text, ps).scan == tokens[|tokens| - 1]
    decreases |text| + 2 - ps.scan.pos
  {
    ScannedTokensFirst(rev, text, ps);
    var ps1 := ScanTokenP(rev, text, ps);
    ScanTokenFacts(rev, text, ps);
    if IsTrivia(ps1.scan.token) {
      ScanNextStopsOnLast(rev, text, ps1);
    }
  }

  /** CommentSpans distributes over a first token and the rest. */
  lemma CommentSpansCons(t: ScannerState, rest: seq<ScannerState>)
    ensures CommentSpans([t] + rest) == CommentSpans([t]) + CommentSpans(rest)
  {
    assert ([t] + rest)[1..] == rest;
    assert [t][1..] == [];
  }

  /** _scanNext records the range of every comment it passes, in order, and no other range. */
  lemma {:induction false} ScanNextRecordsComments(rev: Revision, text: seq<int>, ps: ParserState)
    requires ScanOk(text, ps.scan)
    ensures ScanNextP(rev, text, ps).commentRanges ==
            ps.commentRanges + CommentSpans(ScannedTokens(rev, text, ps.scan))
    decreases |text| + 2 - ps.scan.pos
  {
    ScannedTokensFirst(rev, text, ps);
    ScanTokenAdds(rev, text, ps);
    var ps1 := ScanTokenP(rev, text, ps);
    ScanTokenFacts(rev, text, ps);
    var tokens := ScannedTokens(rev, text, ps.scan);
    if IsTrivia(ps1.scan.token) {
      ScanNextRecordsComments(rev, text, ps1);
      CommentSpansAppend(tokens, ps.commentRanges, ps1.commentRanges, ScanNextP(rev, text, ps1).commentRanges);
    } else {
      assert tokens == [ps1.scan];
    }
  }

  /** The ranges one pass records, followed by those of the rest of the call. */
  lemma CommentSpansAppend(tokens: seq<ScannerState>, a: seq<Span>, b: seq<Span>, c: seq<Span>)
    requires |tokens| > 0
    requires b == a + CommentSpans([tokens[0]]) && c == b + CommentSpans(tokens[1..])
    ensures c == a + CommentSpans(tokens)
  {
    var x, y := CommentSpans([tokens[0]]), CommentSpans(tokens[1..]);
    CommentSpansCons(tokens[0], tokens[1..]);
    assert [tokens[0]] + tokens[1..] == tokens;
    SeqAssoc(a, x, y);
  }

  /** _scanNext adds no problem but the report of a scan error of a token it reads. */
  lemma {:induction false} ScanNextReportsOnlyScanErrors(rev: Revision, text: seq<int>, ps: ParserState)
    requires ScanOk(text, ps.scan)
    ensures OnlyScanErrors(text, ScannedTokens(rev, text, ps.scan), |ps.problems|, ScanNextP(rev, text, ps).problems)
    decreases |text| + 2 - ps.scan.pos
  {
    ScannedTokensFirst(rev, text, ps);
    ScanTokenAdds(rev, text, ps);
    var ps1 := ScanTokenP(rev, text, ps);
    ScanTokenFacts(rev, text, ps);
    var tokens := ScannedTokens(rev, text, ps.scan);
    if IsTrivia(ps1.scan.token) {
      ScanNextReportsOnlyScanErrors(rev, text, ps1);
      OnlyScanErrorsCons(text, tokens, |ps.problems|, ps1.problems, ScanNextP(rev, text, ps1).problems);
    }
  }

  /** The problems one pass adds, followed by those of the rest of the call. */
  lemma OnlyScanErrorsCons(text: seq<int>, tokens: seq<ScannerState>, from: int, mid: seq<Diagnostic>,
                           problems: seq<Diagnostic>)
    requires |tokens| > 0 && mid <= problems
    requires forall i :: from <= i < |mid| && 0 <= i ==> ReportsScanError(text, tokens[0], mid[i])
    requires OnlyScanErrors(text, tokens[1..], |mid|, problems)
    ensures OnlyScanErrors(text, tokens, from, problems)
  {
    forall i | from <= i < |problems| && 0 <= i
      ensures ReportsSomeScanError(text, tokens, problems[i])
    {
      if i < |mid| {
        assert problems[i] == mid[i];
        assert ReportsScanError(text, tokens[0], problems[i]);
      } else {
        assert ReportsSomeScanError(text, tokens[1..], problems[i]);
        var k :| 0 <= k < |tokens[1..]| && ReportsScanError(text, tokens[1..][k], problems[i]);
        assert ReportsScanError(text, tokens[k + 1], problems[i]);
      }
    }
  }

  /** One pass of _scanNext's loop: a comment's range is recorded, and the only problem it can
      add is the report of the token's scan error. */
  lemma ScanTokenAdds(rev: Revision, text: seq<int>, ps: ParserState)
    requires ScanOk(text, ps.scan)
    ensures var s := ScanNextSpec(rev, text, ps.scan);
      var r := ScanTokenP(rev, text, ps);
      ScanOk(text, s) &&
      r.commentRanges == ps.commentRanges + CommentSpans([s]) &&
      (forall i :: |ps.problems| <= i < |r.problems| ==> ReportsScanError(text, s, r.problems[i]))
  {
    var s := ScanNextSpec(rev, text, ps.scan);
    ScanStep(rev, text, ps.scan);
    assert [s][1..] == [];
  }

  /** One pass of _scanNext's loop leaves a problem starting where the token's scan error starts,
      when it has one: its own report, or the last problem already there at that offset. */
  lemma ScanTokenRecords(rev: Revision, text: seq<int>, ps: ParserState)
    requires ScanOk(text, ps.scan) && ProblemsOk(ps)
    ensures var s := ScanNextSpec(rev, text, ps.scan);
      var r := ScanTokenP(rev, text, ps);
      ScanOk(text, s) && ScanErrorsStart(text, [s], r.problems)
  {
    var s := ScanNextSpec(rev, text, ps.scan);
    ScanStep(rev, text, ps.scan);
    var r := ScanTokenP(rev, text, ps);
    if ScanErrorProblem(s.scanError).Some? {
      var start := ErrorRange(text, s).0;
      var i := if |ps.problems| == 0 || start != ps.lastProblemOffset then |ps.problems| else |ps.problems| - 1;
      assert 0 <= i < |r.problems| && r.problems[i].start == start;
      assert [s][0] == s;
    }
  }

  /** Every scan error of a token _scanNext reads is reported, unless the problem before it
      already starts at the same offset. */
  lemma {:induction false} ScanErrorsReported(rev: Revision, text: seq<int>, ps: ParserState)
    requires ScanOk(text, ps.scan) && ProblemsOk(ps)
    ensures ScanErrorsStart(text, ScannedTokens(rev, text, ps.scan), ScanNextP(rev, text, ps).problems)
    decreases |text| + 2 - ps.scan.pos
  {
    ScannedTokensFirst(rev, text, ps);
    ScanTokenRecords(rev, text, ps);
    var ps1 := ScanTokenP(rev, text, ps);
    ScanTokenFacts(rev, text, ps);
    var tokens := ScannedTokens(rev, text, ps.scan);
    if IsTrivia(ps1.scan.token) {
      ScanErrorsReported(rev, text, ps1);
      ScanErrorsStartCons(text, tokens, ps1.problems, ScanNextP(rev, text, ps1).problems);
    }
  }

  /** The scan errors of the first token and of the rest of the call. */
  lemma ScanErrorsStartCons(text: seq<int>, tokens: seq<ScannerState>, mid: seq<Diagnostic>,
                            problems: seq<Diagnostic>)
    requires |tokens| > 0 && mid <= problems
    requires ScanErrorsStart(text, [tokens[0]], mid)
    requires ScanErrorsStart(text, tokens[1..], problems)
    ensures ScanErrorsStart(text, tokens, problems)
  {
    forall k | 0 <= k < |tokens| && ScanOk(text, tokens[k]) && ScanErrorProblem(tokens[k].scanError).Some?
      ensures exists i :: 0 <= i < |problems| && problems[i].start == ErrorRange(text, tokens[k]).0
    {
      if k == 0 {
        assert [tokens[0]][0] == tokens[k];
        var i :| 0 <= i < |mid| && mid[i].start == ErrorRange(text, tokens[k]).0;
        assert problems[i] == mid[i];
      } else {
        assert tokens[1..][k - 1] == tokens[k];
      }
    }
  }
}
