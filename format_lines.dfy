/** What the formatter's line-break flag means in the text, and what it does with comments on
    the line of the token before them: kept there, one space after it, while a comment after a
    line break starts a line of its own. */
module FormatLines {
  import opened Kinds
  import opened Chars
  import opened ScannerSpec
  import opened ParserSpec
  import opened FormatSpec

  /** A line break (LF, CR, or the Unicode line and paragraph separators) lies in text[a..b]. */
  predicate HasLineBreak(text: seq<int>, a: int, b: int)
    requires 0 <= a <= b <= |text|
  {
    exists k :: a <= k < b && IsLineBreak(text[k])
  }

  lemma HasLineBreakJoin(text: seq<int>, a: int, b: int, c: int)
    requires 0 <= a <= b <= c <= |text|
    ensures HasLineBreak(text, a, c) <==> HasLineBreak(text, a, b) || HasLineBreak(text, b, c)
  {
    if HasLineBreak(text, a, c) {
      var k :| a <= k < c && IsLineBreak(text[k]);
      if k < b {
        assert HasLineBreak(text, a, b);
      } else {
        assert HasLineBreak(text, b, c);
      }
    }
  }

  /** A whitespace or line-break token spans only whitespace, or only line-break characters,
      and a token other than EOF starts inside the text. */
  predicate TokenSpans(text: seq<int>, s: ScannerState) {
    0 <= s.tokenOffset <= |text| && (s.token != EOF ==> s.tokenOffset < |text|) &&
    (s.token == Trivia ==> s.pos <= |text| && forall k :: s.tokenOffset <= k < s.pos ==> IsWhiteSpace(text[k])) &&
    (s.token == LineBreakTrivia ==>
       s.tokenOffset < s.pos <= |text| && forall k :: s.tokenOffset <= k < s.pos ==> IsLineBreak(text[k]))
  }

  /** The next token scanned from `s`, which stands at or before the end of the text, starts
      where `s` ends and spans as TokenSpans says. */
  lemma NextTokenSpans(text: seq<int>, s: ScannerState)
    requires 0 <= s.pos <= |text|
    ensures var n := ScanNextSpec(Rev, text, s);
      n.tokenOffset == s.pos && TokenSpans(text, n)
  {
    if s.pos < |text| {
      ScanNextInText(Rev, text, s);
    } else {
      ScanNextAtEnd(Rev, text, s);
    }
  }

  /** Whitespace holds no line break, and a line-break token holds one. */
  lemma TokenLineBreak(text: seq<int>, s: ScannerState)
    requires TokenSpans(text, s) && s.tokenOffset <= s.pos && (s.token == Trivia || s.token == LineBreakTrivia)
    ensures HasLineBreak(text, s.tokenOffset, s.pos) <==> s.token == LineBreakTrivia
  {
    if s.token == LineBreakTrivia {
      assert IsLineBreak(text[s.tokenOffset]);
    }
  }

  /** scanNext's inner loop notes a line break exactly when one lies between the token it starts
      on and the token it stops on. */
  lemma {:induction false} SkipTriviaLineBreak(text: seq<int>, s: ScannerState, lineBreak: bool)
    requires ScanOk(text, s) && TokenSpans(text, s)
    ensures var r := SkipTriviaF(text, s, lineBreak);
      s.tokenOffset <= r.0.tokenOffset <= |text| && (r.0.token != EOF ==> r.0.tokenOffset < |text|) &&
      (r.1 <==> lineBreak || HasLineBreak(text, s.tokenOffset, r.0.tokenOffset))
    decreases Rank(text, s)
  {
    if s.token == Trivia || s.token == LineBreakTrivia {
      var n := ScanNextSpec(Rev, text, s);
      NextTokenSpans(text, s);
      ScanStartsAtPos(text, s);
      SkipTriviaLineBreak(text, n, lineBreak || s.token == LineBreakTrivia);
      var r := SkipTriviaF(text, n, lineBreak || s.token == LineBreakTrivia);
      assert SkipTriviaF(text, s, lineBreak) == r;
      TokenLineBreak(text, s);
      HasLineBreakJoin(text, s.tokenOffset, s.pos, r.0.tokenOffset);
    } else {
      assert !HasLineBreak(text, s.tokenOffset, s.tokenOffset);
    }
  }

  /** scanNext's flag: a line break came before the new token exactly when the text between the
      end of the last token and the start of the new one holds a line break. */
  lemma ScanNextLineBreak(text: seq<int>, fs: FormatState)
    requires ScanOk(text, fs.scan) && fs.scan.pos <= |text|
    ensures var r := ScanNextF(text, fs);
      fs.scan.pos <= r.scan.tokenOffset <= |text| && (r.scan.token != EOF ==> r.scan.tokenOffset < |text|) &&
      (r.lineBreak <==> HasLineBreak(text, fs.scan.pos, r.scan.tokenOffset))
  {
    var n := ScanNextSpec(Rev, text, fs.scan);
    NextTokenSpans(text, fs.scan);
    ScanStartsAtPos(text, fs.scan);
    SkipTriviaLineBreak(text, n, false);
  }

  /** addEdit only appends. */
  lemma AddEditAppends(text: seq<int>, fs: FormatState, content: seq<int>, start: int, end: int)
    ensures fs.edits <= AddEditF(text, fs, content, start, end).edits
  {
  }

  /** A pass of the main loop makes the edits of its comment loop first. */
  lemma StepAppendsToCommentLoop(env: Env, fs: FormatState)
    requires ScanOk(env.text, fs.scan) && fs.scan.token != EOF
    ensures CommentLoopF(env, ScanNextF(env.text, fs), fs.scan.pos, []).0.edits <= FormatStepF(env, fs).edits
  {
    var (fs2, firstTokenEnd, content) := CommentLoopF(env, ScanNextF(env.text, fs), fs.scan.pos, []);
    var d := Decide(env, fs.scan.token, fs2.scan.token, fs2.lineBreak, fs2.indentLevel, fs2.hasError, content);
    AddEditAppends(env.text, fs2.(indentLevel := d.indentLevel, hasError := d.hasError), d.content,
                   firstTokenEnd, fs2.scan.tokenOffset);
  }

  /** The comment loop, on a comment that no line break precedes, first proposes one space for
      the gap before it. */
  lemma CommentLoopSpacesFirst(env: Env, fs: FormatState, firstTokenEnd: int)
    requires ScanOk(env.text, fs.scan) && !fs.lineBreak && IsComment(fs.scan.token)
    ensures AddEditF(env.text, fs, [Space], firstTokenEnd, fs.scan.tokenOffset).edits <=
            CommentLoopF(env, fs, firstTokenEnd, []).0.edits
  {
  }

  /** addEdit on a gap inside the text that differs from `content` records it. */
  lemma AddEditRecords(text: seq<int>, fs: FormatState, content: seq<int>, start: int, end: int)
    requires 0 < start <= end < |text| && !fs.hasError && Substring(text, start, end) != content
    ensures AddEditF(text, fs, content, start, end).edits == fs.edits + [Edit(start, end - start, content)]
  {
  }

  lemma PrefixTrans<T>(a: seq<T>, b: seq<T>, c: seq<T>)
    requires a <= b && b <= c
    ensures a <= c
  {
  }

  /** The comment loop, on a comment that no line break precedes, replaces the gap before it
      with one space first, unless the gap is flagged or already a single space. */
  lemma CommentLoopSpaced(env: Env, fs: FormatState, firstTokenEnd: int)
    requires ScanOk(env.text, fs.scan) && !fs.lineBreak && IsComment(fs.scan.token) && !fs.hasError
    requires 0 < firstTokenEnd <= fs.scan.tokenOffset < |env.text|
    requires Substring(env.text, firstTokenEnd, fs.scan.tokenOffset) != [Space]
    ensures fs.edits + [Edit(firstTokenEnd, fs.scan.tokenOffset - firstTokenEnd, [Space])] <=
            CommentLoopF(env, fs, firstTokenEnd, []).0.edits
  {
    AddEditRecords(env.text, fs, [Space], firstTokenEnd, fs.scan.tokenOffset);
    CommentLoopSpacesFirst(env, fs, firstTokenEnd);
  }

  /** A pass whose next token is a comment that scanNext found on the same line proposes one
      space for the gap before it, ahead of any other edit of the pass. */
  lemma StepSpacesComment(env: Env, fs: FormatState)
    requires ScanOk(env.text, fs.scan) && fs.scan.token != EOF && 0 < fs.scan.pos
    requires var fs1 := ScanNextF(env.text, fs);
      !fs1.lineBreak && IsComment(fs1.scan.token) && !fs1.hasError &&
      fs.scan.pos <= fs1.scan.tokenOffset < |env.text| &&
      Substring(env.text, fs.scan.pos, fs1.scan.tokenOffset) != [Space]
    ensures var fs1 := ScanNextF(env.text, fs);
      fs.edits + [Edit(fs.scan.pos, fs1.scan.tokenOffset - fs.scan.pos, [Space])] <= FormatStepF(env, fs).edits
  {
    var fs1 := ScanNextF(env.text, fs);
    var a := fs1.edits + [Edit(fs.scan.pos, fs1.scan.tokenOffset - fs.scan.pos, [Space])];
    var b := CommentLoopF(env, fs1, fs.scan.pos, []).0.edits;
    var c := FormatStepF(env, fs).edits;
    assert a <= b by { CommentLoopSpaced(env, fs1, fs.scan.pos); }
    assert b <= c by { StepAppendsToCommentLoop(env, fs); }
    PrefixTrans(a, b, c);
  }

  /** A comment with no line break between it and the token before it stays on that line, one
      space after the token: unless the gap is flagged or already a single space, the pass
      replaces the gap with one space, before any other edit it makes. */
  lemma SameLineCommentSpaced(env: Env, fs: FormatState)
    requires ScanOk(env.text, fs.scan) && fs.scan.token != EOF && 0 < fs.scan.pos <= |env.text|
    ensures var fs1 := ScanNextF(env.text, fs);
      var start, end := fs.scan.pos, fs1.scan.tokenOffset;
      start <= end <= |env.text| &&
      (IsComment(fs1.scan.token) && !HasLineBreak(env.text, start, end) && !fs1.hasError &&
       Substring(env.text, start, end) != [Space] ==>
         fs.edits + [Edit(start, end - start, [Space])] <= FormatStepF(env, fs).edits)
  {
    ScanNextLineBreak(env.text, fs);
    var fs1 := ScanNextF(env.text, fs);
    if IsComment(fs1.scan.token) && !fs1.lineBreak && !fs1.hasError &&
       Substring(env.text, fs.scan.pos, fs1.scan.tokenOffset) != [Space] {
      StepSpacesComment(env, fs);
    }
  }

  /** Before a comment, the token before it decides the indent level and the error flag alone:
      one level deeper after an opener, and flagged after an unknown token. */
  lemma DecideByFirstBeforeComment(env: Env, first: SyntaxKind, second: SyntaxKind, lineBreak: bool, level: int,
                                   hasError: bool, content: seq<int>)
    requires IsComment(second)
    ensures var d := DecideByFirst(env, first, second, lineBreak, level, hasError, content);
      d.indentLevel == (if IsOpener(first) then level + 1 else level) && d.hasError == (hasError || first == Unknown)
  {
  }

  /** Before a comment after a line break (and not before a closer), the separator is a line
      break and the indentation of the level, one deeper after an opener; only an unknown token
      before it adds a flag. */
  lemma CommentAfterBreakDecision(env: Env, first: SyntaxKind, second: SyntaxKind, level: int, hasError: bool,
                                  content: seq<int>)
    requires IsComment(second)
    ensures var l := if IsOpener(first) then level + 1 else level;
      Decide(env, first, second, true, level, hasError, content) ==
      Decision(NewLineAndIndent(env, l), l, hasError || first == Unknown)
  {
    DecideByFirstBeforeComment(env, first, second, true, level, hasError, content);
  }

  /** A pass whose next token is a comment after a line break runs no comment loop: the gap gets
      the decision for that comment. */
  lemma StepAfterBreak(env: Env, fs: FormatState)
    requires ScanOk(env.text, fs.scan) && fs.scan.token != EOF
    requires var fs1 := ScanNextF(env.text, fs); fs1.lineBreak && IsComment(fs1.scan.token)
    ensures var fs1 := ScanNextF(env.text, fs);
      var level := if IsOpener(fs.scan.token) then fs.indentLevel + 1 else fs.indentLevel;
      FormatStepF(env, fs) ==
      AddEditF(env.text, fs1.(indentLevel := level, hasError := fs1.hasError || fs.scan.token == Unknown),
               NewLineAndIndent(env, level), fs.scan.pos, fs1.scan.tokenOffset)
  {
    var fs1 := ScanNextF(env.text, fs);
    assert CommentLoopF(env, fs1, fs.scan.pos, []) == (fs1, fs.scan.pos, []);
    CommentAfterBreakDecision(env, fs.scan.token, fs1.scan.token, fs1.indentLevel, fs1.hasError, []);
  }

  /** The edit addEdit makes for a gap inside the text: `content`, unless flagged or already so. */
  lemma AddEditGap(text: seq<int>, fs: FormatState, content: seq<int>, start: int, end: int)
    requires 0 < start <= end < |text|
    ensures var r := AddEditF(text, fs, content, start, end);
      r.scan == fs.scan && r.indentLevel == fs.indentLevel &&
      r.edits == fs.edits + (if !fs.hasError && Substring(text, start, end) != content
                             then [Edit(start, end - start, content)] else [])
  {
  }

  /** One pass over a comment that starts a new line: the exact result, given the line-break flag. */
  lemma StepOwnLine(env: Env, fs: FormatState)
    requires ScanOk(env.text, fs.scan) && fs.scan.token != EOF && 0 < fs.scan.pos
    requires var fs1 := ScanNextF(env.text, fs);
      fs1.lineBreak && IsComment(fs1.scan.token) && fs.scan.pos <= fs1.scan.tokenOffset < |env.text|
    ensures var fs1 := ScanNextF(env.text, fs);
      var level := if IsOpener(fs.scan.token) then fs.indentLevel + 1 else fs.indentLevel;
      var indent := NewLineAndIndent(env, level);
      var start, end := fs.scan.pos, fs1.scan.tokenOffset;
      var r := FormatStepF(env, fs);
      r.scan == fs1.scan && r.indentLevel == level &&
      r.edits == fs.edits + (if !fs1.hasError && fs.scan.token != Unknown && Substring(env.text, start, end) != indent
                             then [Edit(start, end - start, indent)] else [])
  {
    var fs1 := ScanNextF(env.text, fs);
    var level := if IsOpener(fs.scan.token) then fs.indentLevel + 1 else fs.indentLevel;
    var fsD := fs1.(indentLevel := level, hasError := fs1.hasError || fs.scan.token == Unknown);
    var indent := NewLineAndIndent(env, level);
    var start, end := fs.scan.pos, fs1.scan.tokenOffset;
    var g := AddEditF(env.text, fsD, indent, start, end);
    assert FormatStepF(env, fs) == g by {
      StepAfterBreak(env, fs);
    }
    assert g.scan == fs1.scan && g.indentLevel == level &&
           g.edits == fs.edits + (if !fs1.hasError && fs.scan.token != Unknown && Substring(env.text, start, end) != indent
                                  then [Edit(start, end - start, indent)] else []) by {
      AddEditGap(env.text, fsD, indent, start, end);
    }
  }

  /** A comment after a line break starts a line of its own, at the indent level (one deeper
      after an opener): unless the gap is flagged (an unknown token before it, or a scan error in
      the comment) or already so, the pass replaces the gap with a line break and that
      indentation, and makes no other edit. */
  lemma CommentAfterBreakOwnLine(env: Env, fs: FormatState)
    requires ScanOk(env.text, fs.scan) && fs.scan.token != EOF && 0 < fs.scan.pos <= |env.text|
    ensures var fs1 := ScanNextF(env.text, fs);
      var start, end := fs.scan.pos, fs1.scan.tokenOffset;
      var level := if IsOpener(fs.scan.token) then fs.indentLevel + 1 else fs.indentLevel;
      var indent := NewLineAndIndent(env, level);
      var r := FormatStepF(env, fs);
      start <= end <= |env.text| &&
      (IsComment(fs1.scan.token) && HasLineBreak(env.text, start, end) ==>
         r.scan == fs1.scan && r.indentLevel == level &&
         r.edits == fs.edits + (if !fs1.hasError && fs.scan.token != Unknown && Substring(env.text, start, end) != indent
                                then [Edit(start, end - start, indent)] else []))
  {
    ScanNextLineBreak(env.text, fs);
    var fs1 := ScanNextF(env.text, fs);
    if IsComment(fs1.scan.token) && fs1.lineBreak {
      StepOwnLine(env, fs);
    }
  }
}
