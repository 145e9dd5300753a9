/** FormatLibConfigDocument as the source runs it: the closure's variables are the fields of a
    Formatter, its nested functions (scanNext, addEdit, newLineAndIndent) are methods, and each
    method is proved to compute the matching function of module FormatSpec. */
module Formatter {
  import opened Kinds
  import opened Chars
  import opened ScannerSpec
  import opened ParserSpec
  import opened FormatHelpers
  import opened FormatSpec
  import Scanner

  class Formatter {
    const env: Env
    const scanner: Scanner.Scanner
    var lineBreak: bool
    var hasError: bool
    var indentLevel: int
    var edits: seq<Edit>

    function State(): FormatState
      reads this, scanner
    {
      FormatState(scanner.State(), lineBreak, hasError, indentLevel, edits)
    }

    predicate Valid()
      reads this, scanner
    {
      scanner.text == env.text && scanner.rev == Rev && !scanner.ignoreTrivia && ScanOk(env.text, scanner.State())
    }

    constructor (env: Env)
      ensures this.env == env && fresh(scanner)
      ensures Valid() && State() == InitialFormatState()
    {
      this.env := env;
      scanner := new Scanner.Scanner(env.text, Rev, false);
      lineBreak := false;
      hasError := false;
      indentLevel := 0;
      edits := [];
    }

    /** newLineAndIndent. */
    method NewLineAndIndent() returns (r: seq<int>)
      ensures r == FormatSpec.NewLineAndIndent(env, indentLevel)
    {
      var indent := Repeat(env.indentValue, InitialIndentLevel + indentLevel);
      r := env.eol + indent;
    }

    /** scanNext. */
    method ScanNext() returns (token: SyntaxKind)
      requires Valid()
      modifies this, scanner
      ensures Valid() && token == scanner.token
      ensures State() == ScanNextF(env.text, old(State()))
    {
      token := ScanOne();
      lineBreak := false;
      token := SkipTrivia();
      hasError := token == Unknown || scanner.scanError != ScanError.None;
    }

    /** One call of the scanner's scan. */
    method ScanOne() returns (token: SyntaxKind)
      requires Valid()
      modifies scanner
      ensures Valid() && token == scanner.token
      ensures scanner.State() == ScanNextSpec(Rev, env.text, old(scanner.State()))
      ensures token == Trivia || token == LineBreakTrivia ==> scanner.pos <= |env.text|
    {
      ScanStartsAtPos(env.text, scanner.State());
      token := scanner.Scan();
    }

    /** The loop of scanNext over whitespace and line breaks. */
    method SkipTrivia() returns (token: SyntaxKind)
      requires Valid()
      requires scanner.token == Trivia || scanner.token == LineBreakTrivia ==> scanner.pos <= |env.text|
      modifies this, scanner
      ensures Valid() && token == scanner.token
      ensures (scanner.State(), lineBreak) == SkipTriviaF(env.text, old(scanner.State()), old(lineBreak))
      ensures hasError == old(hasError) && indentLevel == old(indentLevel) && edits == old(edits)
    {
      token := scanner.token;
      while token == Trivia || token == LineBreakTrivia
        invariant Valid() && token == scanner.token
        invariant token == Trivia || token == LineBreakTrivia ==> scanner.pos <= |env.text|
        invariant SkipTriviaF(env.text, scanner.State(), lineBreak) ==
                  SkipTriviaF(env.text, old(scanner.State()), old(lineBreak))
        invariant hasError == old(hasError) && indentLevel == old(indentLevel) && edits == old(edits)
        decreases Rank(env.text, scanner.State())
      {
        lineBreak := lineBreak || token == LineBreakTrivia;
        ScanStartsAtPos(env.text, scanner.State());
        token := ScanOne();
      }
    }

    /** addEdit. */
    method AddEdit(content: seq<int>, startOffset: int, endOffset: int)
      modifies this
      ensures State() == AddEditF(env.text, old(State()), content, startOffset, endOffset)
    {
      if !hasError && startOffset < |env.text| && endOffset > 0 &&
         Substring(env.text, startOffset, endOffset) != content {
        edits := edits + [Edit(startOffset, endOffset - startOffset, content)];
      }
    }

    /** The loop over comments on the same line as the token before them. */
    method CommentLoop(firstTokenEnd: int, content: seq<int>) returns (end: int, replaceContent: seq<int>,
                                                                       secondToken: SyntaxKind)
      requires Valid()
      modifies this, scanner
      ensures Valid() && secondToken == scanner.token
      ensures (State(), end, replaceContent) == CommentLoopF(env, old(State()), firstTokenEnd, content)
    {
      end, replaceContent, secondToken := firstTokenEnd, content, scanner.token;
      while !lineBreak && (secondToken == LineCommentTrivia || secondToken == BlockCommentTrivia)
        invariant Valid() && secondToken == scanner.token
        invariant CommentLoopF(env, State(), end, replaceContent) ==
                  CommentLoopF(env, old(State()), firstTokenEnd, content)
        decreases Rank(env.text, scanner.State())
      {
        var commentTokenStart := scanner.tokenOffset + FormatTextStart;
        AddEdit([Space], end, commentTokenStart);
        end := scanner.tokenOffset + (scanner.pos - scanner.tokenOffset) + FormatTextStart;
        if secondToken == LineCommentTrivia {
          replaceContent := NewLineAndIndent();
        } else {
          replaceContent := [];
        }
        secondToken := ScanNext();
      }
    }

    /** The separator after a value or a closer. */
    method AfterValue(secondToken: SyntaxKind, content: seq<int>) returns (replaceContent: seq<int>)
      modifies this
      ensures var d := FormatSpec.AfterValue(secondToken, content, old(indentLevel), old(hasError));
        replaceContent == d.content && hasError == d.hasError
      ensures lineBreak == old(lineBreak) && edits == old(edits) && indentLevel == old(indentLevel)
    {
      replaceContent := content;
      if secondToken == LineCommentTrivia || secondToken == BlockCommentTrivia {
        replaceContent := [Space];
      } else if secondToken != CommaToken && secondToken != EOF {
        hasError := true;
      }
    }

    /** Before a closer: dedent and start a line, unless the closer ends an empty pair. */
    method BeforeCloser(firstToken: SyntaxKind, secondToken: SyntaxKind, content: seq<int>) returns (replaceContent: seq<int>)
      requires IsCloser(secondToken)
      modifies this
      ensures var d := FormatSpec.BeforeCloser(env, firstToken, secondToken, old(indentLevel), old(hasError), content);
        replaceContent == d.content && indentLevel == d.indentLevel && hasError == d.hasError
      ensures lineBreak == old(lineBreak) && edits == old(edits)
    {
      replaceContent := content;
      if secondToken == CloseBraceToken {
        if firstToken != OpenBraceToken {
          indentLevel := indentLevel - 1;
          replaceContent := NewLineAndIndent();
        }
      } else if secondToken == CloseBracketToken {
        if firstToken != OpenBracketToken {
          indentLevel := indentLevel - 1;
          replaceContent := NewLineAndIndent();
        }
      } else {
        if firstToken != OpenParenToken {
          indentLevel := indentLevel - 1;
          replaceContent := NewLineAndIndent();
        }
      }
    }

    /** Before anything else: the switch on the token before, then a comment after a line break
        goes on a line of its own. */
    method BeforeOther(firstToken: SyntaxKind, secondToken: SyntaxKind, content: seq<int>) returns (replaceContent: seq<int>)
      modifies this
      ensures var d := FormatSpec.BeforeOther(env, firstToken, secondToken, old(lineBreak), old(indentLevel),
                                              old(hasError), content);
        replaceContent == d.content && indentLevel == d.indentLevel && hasError == d.hasError
      ensures lineBreak == old(lineBreak) && edits == old(edits)
    {
      replaceContent := DecideByFirst(firstToken, secondToken, content);
      replaceContent := CommentOnOwnLine(secondToken, replaceContent);
    }

    /** A comment after a line break starts a line at the current indentation. */
    method CommentOnOwnLine(secondToken: SyntaxKind, content: seq<int>) returns (replaceContent: seq<int>)
      ensures replaceContent ==
              if lineBreak && IsComment(secondToken) then FormatSpec.NewLineAndIndent(env, indentLevel) else content
    {
      replaceContent := content;
      if lineBreak && (secondToken == LineCommentTrivia || secondToken == BlockCommentTrivia) {
        replaceContent := NewLineAndIndent();
      }
    }

    /** The switch on the token before the gap. */
    method DecideByFirst(firstToken: SyntaxKind, secondToken: SyntaxKind, content: seq<int>) returns (replaceContent: seq<int>)
      modifies this
      ensures var d := FormatSpec.DecideByFirst(env, firstToken, secondToken, old(lineBreak), old(indentLevel),
                                                old(hasError), content);
        replaceContent == d.content && indentLevel == d.indentLevel && hasError == d.hasError
      ensures lineBreak == old(lineBreak) && edits == old(edits)
    {
      replaceContent := content;
      match firstToken {
        case OpenBracketToken =>
          indentLevel := indentLevel + 1;
          replaceContent := NewLineAndIndent();
        case OpenBraceToken =>
          indentLevel := indentLevel + 1;
          replaceContent := NewLineAndIndent();
        case OpenParenToken =>
          indentLevel := indentLevel + 1;
          replaceContent := NewLineAndIndent();
        case CommaToken =>
          replaceContent := NewLineAndIndent();
        case LineCommentTrivia =>
          replaceContent := NewLineAndIndent();
        case SemicolonToken =>
          replaceContent := NewLineAndIndent();
        case ColonToken =>
          replaceContent := NewLineAndIndent();
        case BlockCommentTrivia =>
          if lineBreak {
            replaceContent := NewLineAndIndent();
          } else {
            replaceContent := [Space];
          }
        case PropertyName =>
          replaceContent := [Space];
        case EqualToken =>
          replaceContent := [Space];
        case StringLiteral =>
          if secondToken == ColonToken {
            replaceContent := [];
          } else {
            replaceContent := AfterValue(secondToken, content);
          }
        case TrueKeyword =>
          replaceContent := AfterValue(secondToken, content);
        case FalseKeyword =>
          replaceContent := AfterValue(secondToken, content);
        case NumericLiteral =>
          replaceContent := AfterValue(secondToken, content);
        case CloseBraceToken =>
          replaceContent := AfterValue(secondToken, content);
        case CloseBracketToken =>
          replaceContent := AfterValue(secondToken, content);
        case CloseParenToken =>
          replaceContent := AfterValue(secondToken, content);
        case Unknown =>
          hasError := true;
        case _ =>
      }
    }

    /** One pass of the main loop. */
    method FormatStep(firstToken: SyntaxKind) returns (secondToken: SyntaxKind)
      requires Valid() && firstToken == scanner.token && firstToken != EOF
      modifies this, scanner
      ensures Valid() && secondToken == scanner.token
      ensures State() == FormatStepF(env, old(State()))
    {
      var firstTokenEnd := scanner.tokenOffset + (scanner.pos - scanner.tokenOffset) + FormatTextStart;
      secondToken := ScanNext();
      var replaceContent: seq<int>;
      firstTokenEnd, replaceContent, secondToken := CommentLoop(firstTokenEnd, []);
      if secondToken == CloseBraceToken || secondToken == CloseBracketToken || secondToken == CloseParenToken {
        replaceContent := BeforeCloser(firstToken, secondToken, replaceContent);
      } else {
        replaceContent := BeforeOther(firstToken, secondToken, replaceContent);
      }
      var secondTokenStart := scanner.tokenOffset + FormatTextStart;
      AddEdit(replaceContent, firstTokenEnd, secondTokenStart);
    }

    /** The body of FormatLibConfigDocument after its set-up. */
    method Format() returns (result: seq<Edit>)
      requires Valid() && State() == InitialFormatState()
      modifies this, scanner
      ensures result == FormatLoopF(env, FormatStart(env)).edits
    {
      var firstToken := ScanNext();
      if firstToken != EOF {
        var firstTokenStart := scanner.tokenOffset + FormatTextStart;
        var initialIndent := Repeat(env.indentValue, InitialIndentLevel);
        AddEdit(initialIndent, FormatTextStart, firstTokenStart);
      }
      assert State() == FormatStart(env);
      while firstToken != EOF
        invariant Valid() && firstToken == scanner.token
        invariant FormatLoopF(env, State()) == FormatLoopF(env, FormatStart(env))
        decreases Rank(env.text, scanner.State())
      {
        firstToken := FormatStep(firstToken);
      }
      result := edits;
    }
  }

  /** FormatLibConfigDocument: the edits that format the whole text. */
  method FormatLibConfigDocument(documentText: seq<int>, options: Options) returns (edits: seq<Edit>)
    ensures edits == FormatF(documentText, options)
  {
    var eol := GetEol(options, documentText);
    var indentValue: seq<int>;
    if options.insertSpaces {
      indentValue := Repeat([Space], TabSize(options));
    } else {
      indentValue := [Tab];
    }
    var formatter := new Formatter(Env(documentText, eol, indentValue));
    edits := formatter.Format();
  }
}
