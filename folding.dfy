/** getFoldingRanges: a scan over the document with a stack of open ranges, then, when the
    client's limit is exceeded, a histogram of nesting levels and a selection of the shallowest
    ranges. Each loop is proved to compute the matching function of module FoldingSpec. */
module Folding {
  import opened Kinds
  import opened Wrappers
  import opened ScannerSpec
  import opened FoldingSpec
  import Scanner

  /** The innermost region on the stack: the search down from the top. */
  method FindRegion(stack: seq<FoldingRange>) returns (i: int)
    ensures i == InnermostRegion(stack)
  {
    i := |stack| - 1;
    while i >= 0 && stack[i].kind != RegionFold
      invariant -1 <= i < |stack|
      invariant InnermostRegion(stack) == InnermostRegion(stack[..i + 1])
    {
      assert stack[..i + 1][..i] == stack[..i];
      i := i - 1;
    }
    if i >= 0 {
      assert stack[..i + 1][i] == stack[i];
    } else {
      assert stack[..i + 1] == [];
    }
  }

  /** What one token does to the extractor's variables, and where the scan resumes when the
      scanner is to be rewound. */
  method FoldToken(doc: Document, stack: seq<FoldingRange>, ranges: seq<FoldingRange>, levels: seq<int>,
                   prevStart: int, s: ScannerState)
    returns (stack': seq<FoldingRange>, ranges': seq<FoldingRange>, levels': seq<int>, prevStart': int,
             rescan: Option<int>)
    ensures (FoldState(stack', ranges', levels', prevStart'), rescan) ==
            FoldTokenF(doc, FoldState(stack, ranges, levels, prevStart), s)
  {
    stack', ranges', levels', prevStart', rescan := stack, ranges, levels, prevStart, Nothing;
    match s.token {
      case OpenBraceToken =>
        stack' := Open(doc, stack, s);
      case OpenBracketToken =>
        stack' := Open(doc, stack, s);
      case OpenParenToken =>
        stack' := Open(doc, stack, s);
      case CloseBraceToken =>
        stack', ranges', levels', prevStart' := Close(doc, stack, ranges, levels, prevStart, s);
      case CloseBracketToken =>
        stack', ranges', levels', prevStart' := Close(doc, stack, ranges, levels, prevStart, s);
      case CloseParenToken =>
        stack', ranges', levels', prevStart' := Close(doc, stack, ranges, levels, prevStart, s);
      case BlockCommentTrivia =>
        ranges', levels', prevStart', rescan := BlockComment(doc, stack, ranges, levels, prevStart, s);
      case LineCommentTrivia =>
        stack', ranges', levels', prevStart' := LineComment(doc, stack, ranges, levels, prevStart, s);
      case _ =>
    }
  }

  method Open(doc: Document, stack: seq<FoldingRange>, s: ScannerState) returns (stack': seq<FoldingRange>)
    ensures stack' == OpenF(doc, FoldState(stack, [], [], 0), s).stack
  {
    var startLine := doc.lineOf(s.tokenOffset);
    var range := FoldingRange(startLine, startLine, if s.token == OpenBraceToken then ObjectFold else ArrayFold);
    stack' := stack + [range];
  }

  method Close(doc: Document, stack: seq<FoldingRange>, ranges: seq<FoldingRange>, levels: seq<int>,
               prevStart: int, s: ScannerState)
    returns (stack': seq<FoldingRange>, ranges': seq<FoldingRange>, levels': seq<int>, prevStart': int)
    ensures FoldState(stack', ranges', levels', prevStart') == CloseF(doc, FoldState(stack, ranges, levels, prevStart), s)
  {
    stack', ranges', levels', prevStart' := stack, ranges, levels, prevStart;
    var kind := if s.token == CloseBraceToken then ObjectFold else ArrayFold;
    if |stack| > 0 && stack[|stack| - 1].kind == kind {
      var range := stack[|stack| - 1];
      stack' := stack[..|stack| - 1];
      var line := doc.lineOf(s.tokenOffset);
      if line > range.startLine + 1 && prevStart != range.startLine {
        range := range.(endLine := line - 1);
        ranges', levels' := ranges + [range], levels + [|stack'|];
        prevStart' := range.startLine;
      }
    }
  }

  method BlockComment(doc: Document, stack: seq<FoldingRange>, ranges: seq<FoldingRange>, levels: seq<int>,
                      prevStart: int, s: ScannerState)
    returns (ranges': seq<FoldingRange>, levels': seq<int>, prevStart': int, rescan: Option<int>)
    ensures (FoldState(stack, ranges', levels', prevStart'), rescan) ==
            BlockCommentF(doc, FoldState(stack, ranges, levels, prevStart), s)
  {
    ranges', levels', prevStart', rescan := ranges, levels, prevStart, Nothing;
    var startLine := doc.lineOf(s.tokenOffset);
    var endLine := doc.lineOf(s.pos);
    if s.scanError == ScanError.UnexpectedEndOfComment && startLine + 1 < doc.lineCount {
      rescan := Some(doc.lineStart(startLine + 1));
    } else if startLine < endLine {
      ranges', levels' := ranges + [FoldingRange(startLine, endLine, CommentFold)], levels + [|stack|];
      prevStart' := startLine;
    }
  }

  method LineComment(doc: Document, stack: seq<FoldingRange>, ranges: seq<FoldingRange>, levels: seq<int>,
                     prevStart: int, s: ScannerState)
    returns (stack': seq<FoldingRange>, ranges': seq<FoldingRange>, levels': seq<int>, prevStart': int)
    ensures FoldState(stack', ranges', levels', prevStart') ==
            LineCommentF(doc, FoldState(stack, ranges, levels, prevStart), s)
  {
    stack', ranges', levels', prevStart' := stack, ranges, levels, prevStart;
    var text := Chars.Substring(doc.text, s.tokenOffset, s.pos);
    var line := doc.lineOf(s.tokenOffset);
    if IsRegionStart(text) {
      stack' := stack + [FoldingRange(line, line, RegionFold)];
    } else if HasEndRegion(text) {
      var i := FindRegion(stack);
      if i >= 0 {
        var range := stack[i];
        stack' := stack[..i];
        if line > range.startLine && prevStart != range.startLine {
          range := range.(endLine := line);
          ranges', levels' := ranges + [range], levels + [|stack'|];
          prevStart' := range.startLine;
        }
      }
    }
  }

  /** The histogram of nesting levels below 30. */
  method CountLevels(levels: seq<int>) returns (counts: seq<int>)
    ensures counts == Histogram(levels)
  {
    counts := [];
    for i := 0 to |levels|
      invariant counts == Histogram(levels[..i])
    {
      assert levels[..i + 1][..i] == levels[..i];
      var level := levels[i];
      if 0 <= level < MaxCountedLevel {
        if level < |counts| {
          counts := counts[level := counts[level] + 1];
        } else {
          counts := counts + Zeros(level - |counts|) + [1];
        }
      }
    }
    assert levels[..|levels|] == levels;
  }

  /** The cut-off: the first level whose count would take the total past the limit. */
  method FindCutoff(counts: seq<int>, limit: int) returns (maxLevel: int, entries: int)
    ensures Cutoff(maxLevel, entries) == CutoffF(counts, limit, 0, 0)
  {
    entries := 0;
    maxLevel := 0;
    var i := 0;
    while i < |counts|
      invariant 0 <= i <= |counts| && maxLevel == 0
      invariant CutoffF(counts, limit, i, entries) == CutoffF(counts, limit, 0, 0)
    {
      var n := counts[i];
      if n != 0 {
        if n + entries > limit {
          maxLevel := i;
          return;
        }
        entries := entries + n;
      }
      i := i + 1;
    }
  }

  /** The selection: every range above the cut-off level and, at that level, as many as fit. */
  method Select(ranges: seq<FoldingRange>, levels: seq<int>, maxLevel: int, entries: int, limit: int)
    returns (result: seq<FoldingRange>)
    requires |levels| == |ranges|
    ensures result == SelectF(ranges, levels, 0, Cutoff(maxLevel, entries), limit)
  {
    result := [];
    var cut := Cutoff(maxLevel, entries);
    for i := 0 to |ranges|
      invariant cut.maxLevel == maxLevel
      invariant result + SelectF(ranges, levels, i, cut, limit) == SelectF(ranges, levels, 0, Cutoff(maxLevel, entries), limit)
    {
      var level := levels[i];
      if level < maxLevel || (level == maxLevel && cut.entries < limit) {
        result := result + [ranges[i]];
      }
      if level == maxLevel {
        cut := cut.(entries := cut.entries + 1);
      }
    }
  }

  /** getFoldingRanges. */
  method GetFoldingRanges(doc: Document, context: FoldingContext) returns (result: FoldResult)
    requires LinesOk(doc)
    ensures result == FoldingRangesF(doc, context)
  {
    var ranges: seq<FoldingRange> := [];
    var nestingLevels: seq<int> := [];
    var stack: seq<FoldingRange> := [];
    var prevStart := -1;
    var scanner := new Scanner.Scanner(doc.text, Rev, false);
    var token := scanner.Scan();
    ScanFrom(doc.text, InitialState());
    while token != EOF
      invariant scanner.Valid() && scanner.text == doc.text && scanner.rev == Rev && !scanner.ignoreTrivia
      invariant token == scanner.token && Scanned(doc.text, scanner.State())
      invariant FoldLoopF(doc, FoldState(stack, ranges, nestingLevels, prevStart), scanner.State()) ==
                ScanRangesF(doc)
      decreases |doc.text| - scanner.tokenOffset
    {
      var s := scanner.State();
      ghost var fs := FoldState(stack, ranges, nestingLevels, prevStart);
      FoldTokenResumes(doc, fs, s);
      var rescan;
      stack, ranges, nestingLevels, prevStart, rescan := FoldToken(doc, stack, ranges, nestingLevels, prevStart, s);
      if rescan.Some? {
        scanner.SetPosition(rescan.value);
      }
      ScanFrom(doc.text, scanner.State());
      token := scanner.Scan();
    }
    FoldLoopLevels(doc, InitialFoldState(), ScanNextSpec(Rev, doc.text, InitialState()));
    result := Truncate(ranges, nestingLevels, context);
  }

  /** The part of getFoldingRanges after the scan: all ranges when there is no numeric limit or
      they fit in it; otherwise the limit is reported and the shallowest ranges are kept. */
  method Truncate(ranges: seq<FoldingRange>, nestingLevels: seq<int>, context: FoldingContext)
    returns (result: FoldResult)
    requires |nestingLevels| == |ranges|
    ensures result == LimitF(ranges, nestingLevels, context)
  {
    if context.rangeLimit.Nothing? || |ranges| <= context.rangeLimit.value {
      return FoldResult(ranges, false);
    }
    var rangeLimit := context.rangeLimit.value;
    var counts := CountLevels(nestingLevels);
    var maxLevel, entries := FindCutoff(counts, rangeLimit);
    var kept := Select(ranges, nestingLevels, maxLevel, entries, rangeLimit);
    result := FoldResult(kept, context.hasCallback);
  }
}
