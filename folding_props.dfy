/** What getFoldingRanges promises: every range lies in the document and spans at least two
    lines, a bracket or region range never starts on the line of the range found just before
    it, and under a limit the result is an in-order selection of at most that many ranges,
    the shallowest ones. */
module FoldingProperties {
  import opened Kinds
  import opened Wrappers
  import opened ScannerSpec
  import opened FoldingSpec
  import opened Sequences

  // ---------------------------------------------------------------------------------------
  // The scan

  /** The invariant of the scan: open ranges start on a line of the document; every range
      found starts before it ends, within the document; each has a nesting level; `prevStart`
      is the start line of the last range found; and a bracket or region range never starts on
      the line of the range before it. */
  ghost predicate FoldOk(doc: Document, fs: FoldState) {
    (forall k :: 0 <= k < |fs.stack| ==> 0 <= fs.stack[k].startLine < doc.lineCount) &&
    |fs.levels| == |fs.ranges| &&
    (forall k :: 0 <= k < |fs.levels| ==> 0 <= fs.levels[k]) &&
    (forall k :: 0 <= k < |fs.ranges| ==> 0 <= fs.ranges[k].startLine < fs.ranges[k].endLine < doc.lineCount) &&
    fs.prevStart == (if |fs.ranges| == 0 then -1 else fs.ranges[|fs.ranges| - 1].startLine) &&
    (forall k :: 0 < k < |fs.ranges| && fs.ranges[k].kind != CommentFold ==>
                 fs.ranges[k].startLine != fs.ranges[k - 1].startLine)
  }

  /** Recording a range that spans lines of the document keeps the invariant, when a bracket
      or region range does not start where the last range started. */
  lemma RecordOk(doc: Document, fs: FoldState, r: FoldingRange)
    requires FoldOk(doc, fs)
    requires 0 <= r.startLine < r.endLine < doc.lineCount
    requires r.kind != CommentFold ==> fs.prevStart != r.startLine
    ensures FoldOk(doc, Record(fs, r))
  {
  }

  /** Dropping open ranges keeps the invariant. */
  lemma PopOk(doc: Document, fs: FoldState, n: nat)
    requires FoldOk(doc, fs) && n <= |fs.stack|
    ensures FoldOk(doc, fs.(stack := fs.stack[..n]))
  {
  }

  lemma CloseOk(doc: Document, fs: FoldState, s: ScannerState)
    requires LinesOk(doc) && FoldOk(doc, fs)
    ensures FoldOk(doc, CloseF(doc, fs, s))
  {
    var kind := if s.token == CloseBraceToken then ObjectFold else ArrayFold;
    if |fs.stack| > 0 && fs.stack[|fs.stack| - 1].kind == kind {
      var r := fs.stack[|fs.stack| - 1];
      var popped := fs.(stack := fs.stack[..|fs.stack| - 1]);
      var line := doc.lineOf(s.tokenOffset);
      PopOk(doc, fs, |fs.stack| - 1);
      if line > r.startLine + 1 && fs.prevStart != r.startLine {
        RecordOk(doc, popped, r.(endLine := line - 1));
      }
    }
  }

  lemma LineCommentOk(doc: Document, fs: FoldState, s: ScannerState)
    requires LinesOk(doc) && FoldOk(doc, fs)
    ensures FoldOk(doc, LineCommentF(doc, fs, s))
  {
    var c := Chars.Substring(doc.text, s.tokenOffset, s.pos);
    var line := doc.lineOf(s.tokenOffset);
    if !IsRegionStart(c) && HasEndRegion(c) {
      var i := InnermostRegion(fs.stack);
      if i >= 0 {
        var r := fs.stack[i];
        var dropped := fs.(stack := fs.stack[..i]);
        PopOk(doc, fs, i);
        if line > r.startLine && fs.prevStart != r.startLine {
          RecordOk(doc, dropped, r.(endLine := line));
        }
      }
    }
  }

  lemma BlockCommentOk(doc: Document, fs: FoldState, s: ScannerState)
    requires LinesOk(doc) && FoldOk(doc, fs)
    ensures FoldOk(doc, BlockCommentF(doc, fs, s).0)
  {
    var startLine := doc.lineOf(s.tokenOffset);
    var endLine := doc.lineOf(s.pos);
    if !(s.scanError == ScanError.UnexpectedEndOfComment && startLine + 1 < doc.lineCount) && startLine < endLine {
      RecordOk(doc, fs, FoldingRange(startLine, endLine, CommentFold));
    }
  }

  /** Every token keeps the invariant. */
  lemma FoldTokenOk(doc: Document, fs: FoldState, s: ScannerState)
    requires LinesOk(doc) && FoldOk(doc, fs)
    ensures FoldOk(doc, FoldTokenF(doc, fs, s).0)
  {
    match s.token
    case CloseBraceToken => CloseOk(doc, fs, s);
    case CloseBracketToken => CloseOk(doc, fs, s);
    case CloseParenToken => CloseOk(doc, fs, s);
    case BlockCommentTrivia => BlockCommentOk(doc, fs, s);
    case LineCommentTrivia => LineCommentOk(doc, fs, s);
    case _ =>
  }

  lemma {:induction false} FoldLoopOk(doc: Document, fs: FoldState, s: ScannerState)
    requires LinesOk(doc) && Scanned(doc.text, s) && FoldOk(doc, fs)
    ensures FoldOk(doc, FoldLoopF(doc, fs, s))
    decreases |doc.text| - s.tokenOffset
  {
    if s.token != EOF {
      var (fs1, rescan) := FoldTokenF(doc, fs, s);
      var s1 := Resume(s, rescan);
      FoldTokenResumes(doc, fs, s);
      ScanFrom(doc.text, s1);
      FoldTokenOk(doc, fs, s);
      FoldLoopOk(doc, fs1, ScanNextSpec(Rev, doc.text, s1));
    }
  }

  /** The scan of a document finds ranges that start before they end, on lines of the
      document, at non-negative nesting levels; no bracket or region range starts on the line
      of the range found just before it. */
  lemma ScanRangesOk(doc: Document)
    requires LinesOk(doc)
    ensures var fs := ScanRangesF(doc);
      |fs.levels| == |fs.ranges| &&
      (forall k :: 0 <= k < |fs.levels| ==> 0 <= fs.levels[k]) &&
      (forall k :: 0 <= k < |fs.ranges| ==> 0 <= fs.ranges[k].startLine < fs.ranges[k].endLine < doc.lineCount) &&
      (forall k :: 0 < k < |fs.ranges| && fs.ranges[k].kind != CommentFold ==>
                   fs.ranges[k].startLine != fs.ranges[k - 1].startLine)
  {
    ScanFrom(doc.text, InitialState());
    FoldLoopOk(doc, InitialFoldState(), ScanNextSpec(Rev, doc.text, InitialState()));
  }

  // ---------------------------------------------------------------------------------------
  // Counting

  /** How many levels lie below `m`. */
  function CountBelow(levels: seq<int>, m: int): nat {
    if |levels| == 0 then 0 else (if levels[0] < m then 1 else 0) + CountBelow(levels[1..], m)
  }

  /** The sum of the first `j` counts. */
  function SumTo(counts: seq<int>, j: nat): int
    requires j <= |counts|
  {
    if j == 0 then 0 else SumTo(counts, j - 1) + counts[j - 1]
  }

  /** At most `room` of `n`, and none when there is no room. */
  function Clip(n: int, room: int): int {
    if room <= 0 then 0 else if n < room then n else room
  }

  function Max0(x: int): int {
    if x < 0 then 0 else x
  }

  /** The histogram counts each level below 30, and is no longer than needed. */
  lemma {:induction false} HistogramCounts(levels: seq<int>)
    ensures var h := Histogram(levels);
      |h| <= MaxCountedLevel &&
      (forall l :: 0 <= l < |h| ==> h[l] == multiset(levels)[l]) &&
      (forall l :: |h| <= l < MaxCountedLevel ==> multiset(levels)[l] == 0)
    decreases |levels|
  {
    if |levels| > 0 {
      var init := levels[..|levels| - 1];
      var x := levels[|levels| - 1];
      HistogramCounts(init);
      assert levels == init + [x];
      assert multiset(levels) == multiset(init) + multiset{x};
    }
  }

  lemma {:induction false} CountBelowStep(levels: seq<int>, m: int)
    ensures CountBelow(levels, m + 1) == CountBelow(levels, m) + multiset(levels)[m]
    decreases |levels|
  {
    if |levels| > 0 {
      CountBelowStep(levels[1..], m);
      assert levels == [levels[0]] + levels[1..];
      assert multiset(levels) == multiset{levels[0]} + multiset(levels[1..]);
    }
  }

  lemma {:induction false} CountBelowZero(levels: seq<int>)
    requires forall k :: 0 <= k < |levels| ==> 0 <= levels[k]
    ensures CountBelow(levels, 0) == 0
    decreases |levels|
  {
    if |levels| > 0 {
      CountBelowZero(levels[1..]);
    }
  }

  lemma {:induction false} CountBelowAll(levels: seq<int>, m: int)
    requires forall k :: 0 <= k < |levels| ==> levels[k] < m
    ensures CountBelow(levels, m) == |levels|
    decreases |levels|
  {
    if |levels| > 0 {
      CountBelowAll(levels[1..], m);
    }
  }

  /** The first `j` slots of the histogram add up to the number of levels below `j`. */
  lemma {:induction false} HistogramPrefixSum(levels: seq<int>, j: nat)
    requires forall k :: 0 <= k < |levels| ==> 0 <= levels[k]
    requires j <= |Histogram(levels)|
    ensures SumTo(Histogram(levels), j) == CountBelow(levels, j)
    decreases j
  {
    if j == 0 {
      CountBelowZero(levels);
    } else {
      HistogramPrefixSum(levels, j - 1);
      HistogramCounts(levels);
      CountBelowStep(levels, j - 1);
    }
  }

  /** What the cut-off loop finds: either a level whose count overflows the limit, with the
      counts before it adding up to the total kept so far; or no such level, with all counts
      added up. Either way the total does not exceed the limit (or 0). */
  lemma {:induction false} CutoffFacts(counts: seq<int>, limit: int, i: nat, entries: int)
    requires i <= |counts| && entries == SumTo(counts, i) && 0 <= entries <= Max0(limit)
    requires forall l :: 0 <= l < |counts| ==> 0 <= counts[l]
    ensures var c := CutoffF(counts, limit, i, entries);
      0 <= c.entries <= Max0(limit) &&
      ((0 <= c.maxLevel < |counts| && c.entries == SumTo(counts, c.maxLevel) && c.entries + counts[c.maxLevel] > limit) ||
       (c.maxLevel == 0 && c.entries == SumTo(counts, |counts|)))
    decreases |counts| - i
  {
    if i < |counts| && !(counts[i] != 0 && counts[i] + entries > limit) {
      CutoffFacts(counts, limit, i + 1, entries + counts[i]);
    }
  }

  /** How many ranges the selection keeps: all those above the cut-off level, and as many at
      it as the room left by the running count. */
  lemma {:induction false} SelectCount(ranges: seq<FoldingRange>, levels: seq<int>, i: nat, cut: Cutoff, limit: int)
    requires |levels| == |ranges| && i <= |ranges|
    ensures |SelectF(ranges, levels, i, cut, limit)| ==
            CountBelow(levels[i..], cut.maxLevel) + Clip(multiset(levels[i..])[cut.maxLevel], limit - cut.entries)
    decreases |ranges| - i
  {
    if i < |ranges| {
      SelectCount(ranges, levels, i + 1, Advance(levels[i], cut), limit);
      assert levels[i..] == [levels[i]] + levels[i + 1..];
      assert multiset(levels[i..]) == multiset{levels[i]} + multiset(levels[i + 1..]);
    }
  }

  /** The selection is a subsequence of the ranges. */
  lemma {:induction false} SelectSubsequence(ranges: seq<FoldingRange>, levels: seq<int>, i: nat, cut: Cutoff, limit: int)
    requires |levels| == |ranges| && i <= |ranges|
    ensures Subsequence(SelectF(ranges, levels, i, cut, limit), ranges[i..])
    decreases |ranges| - i
  {
    if i < |ranges| {
      SelectSubsequence(ranges, levels, i + 1, Advance(levels[i], cut), limit);
      assert ranges[i..][1..] == ranges[i + 1..];
      var rest := SelectF(ranges, levels, i + 1, Advance(levels[i], cut), limit);
      if Kept(levels[i], cut, limit) {
        assert SelectF(ranges, levels, i, cut, limit) == [ranges[i]] + rest;
        assert ([ranges[i]] + rest)[1..] == rest;
      } else {
        assert SelectF(ranges, levels, i, cut, limit) == rest;
      }
    }
  }

  /** How many of the first `k` levels are `m`. */
  function CountAt(levels: seq<int>, k: nat, m: int): nat
    requires k <= |levels|
  {
    if k == 0 then 0 else CountAt(levels, k - 1, m) + (if levels[k - 1] == m then 1 else 0)
  }

  /** Whether the selection keeps range `k`: the running count there is the count found by the
      cut-off loop plus the ranges at the cut-off level before `k`. */
  predicate KeepAt(levels: seq<int>, k: nat, cut: Cutoff, limit: int)
    requires k < |levels|
  {
    Kept(levels[k], Cutoff(cut.maxLevel, cut.entries + CountAt(levels, k, cut.maxLevel)), limit)
  }

  /** KeepAt for every range. */
  function KeepMask(levels: seq<int>, cut: Cutoff, limit: int): (keep: seq<bool>)
    ensures |keep| == |levels|
    ensures forall k :: 0 <= k < |levels| ==> keep[k] == KeepAt(levels, k, cut, limit)
  {
    seq(|levels|, k requires 0 <= k < |levels| => KeepAt(levels, k, cut, limit))
  }

  /** The selection from range `i` on, with the running count at `i`, filters by KeepMask. */
  lemma {:induction false} SelectFilters(ranges: seq<FoldingRange>, levels: seq<int>, i: nat, c: Cutoff,
                                         cut: Cutoff, limit: int, keep: seq<bool>)
    requires |levels| == |ranges| && i <= |ranges| && keep == KeepMask(levels, cut, limit)
    requires c == Cutoff(cut.maxLevel, cut.entries + CountAt(levels, i, cut.maxLevel))
    ensures SelectF(ranges, levels, i, c, limit) == Filter(ranges[i..], keep[i..])
    decreases |ranges| - i
  {
    if i < |ranges| {
      SelectFilters(ranges, levels, i + 1, Advance(levels[i], c), cut, limit, keep);
      assert ranges[i..][1..] == ranges[i + 1..];
      assert keep[i..][1..] == keep[i + 1..];
      assert keep[i] == Kept(levels[i], c, limit);
    }
  }

  /** The ranges at one level before `k1` are no more than those before `k2`, for `k1 <= k2`. */
  lemma {:induction false} CountAtGrows(levels: seq<int>, k1: nat, k2: nat, m: int)
    requires k1 <= k2 <= |levels|
    ensures CountAt(levels, k1, m) <= CountAt(levels, k2, m)
    decreases k2
  {
    if k1 < k2 {
      CountAtGrows(levels, k1, k2 - 1, m);
    }
  }

  /** The selection keeps every range above the cut-off level, none below it, and, of those at
      it, a first run: a range at the cut-off level is kept only if every earlier one is. */
  lemma SelectShallowest(ranges: seq<FoldingRange>, levels: seq<int>, cut: Cutoff, limit: int)
    requires |levels| == |ranges|
    ensures var keep := KeepMask(levels, cut, limit);
      SelectF(ranges, levels, 0, cut, limit) == Filter(ranges, keep) &&
      (forall k :: 0 <= k < |levels| && levels[k] < cut.maxLevel ==> keep[k]) &&
      (forall k :: 0 <= k < |levels| && levels[k] > cut.maxLevel ==> !keep[k]) &&
      (forall k1, k2 :: 0 <= k1 < k2 < |levels| && levels[k1] == cut.maxLevel && levels[k2] == cut.maxLevel ==>
         (keep[k2] ==> keep[k1]))
  {
    var keep := KeepMask(levels, cut, limit);
    SelectFilters(ranges, levels, 0, cut, cut, limit, keep);
    assert ranges[0..] == ranges && keep[0..] == keep;
    forall k1, k2 | 0 <= k1 < k2 < |levels| && levels[k1] == cut.maxLevel && levels[k2] == cut.maxLevel
      ensures keep[k2] ==> keep[k1]
    {
      CountAtGrows(levels, k1, k2, cut.maxLevel);
    }
  }

  // ---------------------------------------------------------------------------------------
  // The limit

  /** Without a numeric limit, or within it, every range is returned and nothing is reported. */
  lemma WithinLimitUnchanged(ranges: seq<FoldingRange>, levels: seq<int>, context: FoldingContext)
    requires |levels| == |ranges|
    requires context.rangeLimit.Nothing? || |ranges| <= context.rangeLimit.value
    ensures LimitF(ranges, levels, context) == FoldResult(ranges, false)
  {
  }

  /** Over the limit, the limit is reported when the client asks for it, and the ranges
      returned are an in-order selection of at most `rangeLimit` of them (none for a negative
      limit). When every nesting level is below 30, exactly `rangeLimit` are returned. */
  lemma OverLimitTruncated(ranges: seq<FoldingRange>, levels: seq<int>, context: FoldingContext)
    requires |levels| == |ranges| && forall k :: 0 <= k < |levels| ==> 0 <= levels[k]
    requires context.rangeLimit.Some? && |ranges| > context.rangeLimit.value
    ensures var r := LimitF(ranges, levels, context);
      var limit := context.rangeLimit.value;
      r.limitReported == context.hasCallback &&
      Subsequence(r.ranges, ranges) &&
      |r.ranges| <= Max0(limit) &&
      (0 <= limit && (forall k :: 0 <= k < |levels| ==> levels[k] < MaxCountedLevel) ==> |r.ranges| == limit)
  {
    var limit := context.rangeLimit.value;
    var h := Histogram(levels);
    HistogramCounts(levels);
    assert forall l :: 0 <= l < |h| ==> 0 <= h[l];
    CutoffFacts(h, limit, 0, 0);
    var cut := CutoffF(h, limit, 0, 0);
    HistogramPrefixSum(levels, cut.maxLevel);
    HistogramPrefixSum(levels, |h|);
    SelectCount(ranges, levels, 0, cut, limit);
    SelectSubsequence(ranges, levels, 0, cut, limit);
    assert ranges[0..] == ranges && levels[0..] == levels;
    if cut.maxLevel == 0 {
      CountBelowZero(levels);
    }
    if 0 <= limit && (forall k :: 0 <= k < |levels| ==> levels[k] < MaxCountedLevel) {
      forall k | 0 <= k < |levels|
        ensures levels[k] < |h|
      {
        assert levels[k] in multiset(levels);
      }
      CountBelowAll(levels, |h|);
    }
  }

  /** Over the limit, the ranges returned are those KeepMask marks at the cut-off level the
      histogram gives: the shallowest, as SelectShallowest says. */
  lemma OverLimitShallowest(ranges: seq<FoldingRange>, levels: seq<int>, context: FoldingContext)
    requires |levels| == |ranges|
    requires context.rangeLimit.Some? && |ranges| > context.rangeLimit.value
    ensures var limit := context.rangeLimit.value;
      LimitF(ranges, levels, context).ranges == Filter(ranges, KeepMask(levels, CutoffF(Histogram(levels), limit, 0, 0), limit))
  {
    var limit := context.rangeLimit.value;
    SelectShallowest(ranges, levels, CutoffF(Histogram(levels), limit, 0, 0), limit);
  }

  /** getFoldingRanges in full: the ranges of the scan, truncated to the limit. */
  lemma FoldingRangesLimited(doc: Document, context: FoldingContext)
    requires LinesOk(doc)
    ensures var r := FoldingRangesF(doc, context);
      var all := ScanRangesF(doc).ranges;
      Subsequence(r.ranges, all) &&
      (context.rangeLimit.Nothing? || |all| <= context.rangeLimit.value ==> r == FoldResult(all, false)) &&
      (context.rangeLimit.Some? && |all| > context.rangeLimit.value ==>
         r.limitReported == context.hasCallback && |r.ranges| <= Max0(context.rangeLimit.value))
  {
    ScanRangesOk(doc);
    var fs := ScanRangesF(doc);
    if context.rangeLimit.Some? && |fs.ranges| > context.rangeLimit.value {
      OverLimitTruncated(fs.ranges, fs.levels, context);
    } else {
      SubsequenceRefl(fs.ranges);
    }
  }
}
