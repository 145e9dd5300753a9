/** The formatter's small helpers: `repeat`, `getEOL`, `computeIndentLevel` and `isEOL`, and the
    formatting options they read. Each helper that loops is a method proved against a function. */
module FormatHelpers {
  import opened Chars

  /** The formatting options the formatter reads. `tabSize` 0 stands for an absent (or zero)
      tab size, which `options.tabSize || 4` turns into 4; an empty `eol` stands for an absent,
      empty or non-string `options.eol`. */
  datatype Options = Options(tabSize: int, insertSpaces: bool, eol: seq<int>)

  function TabSize(options: Options): (r: int)
    ensures r != 0
    ensures options.tabSize != 0 ==> r == options.tabSize
  {
    if options.tabSize == 0 then 4 else options.tabSize
  }

  // ---------------------------------------------------------------------------------------
  // repeat

  /** `n` copies of `s` one after the other; none when `n` is not positive. */
  function Copies(s: seq<int>, n: int): seq<int>
    decreases n
  {
    if n <= 0 then [] else Copies(s, n - 1) + s
  }

  /** repeat(s, count). */
  method Repeat(s: seq<int>, count: int) returns (result: seq<int>)
    ensures result == Copies(s, count)
  {
    result := [];
    var i := 0;
    while i < count
      invariant 0 <= i && (i <= count || i == 0)
      invariant result == Copies(s, i)
      decreases count - i
    {
      result := result + s;
      i := i + 1;
    }
  }

  /** The length of `n` copies. */
  lemma {:induction false} CopiesLength(s: seq<int>, n: int)
    ensures |Copies(s, n)| == (if n <= 0 then 0 else n * |s|)
    decreases n
  {
    if n > 0 {
      CopiesLength(s, n - 1);
    }
  }

  /** Copies concatenate: a + b copies are a copies followed by b copies. */
  lemma {:induction false} CopiesAdd(s: seq<int>, a: int, b: int)
    requires 0 <= a && 0 <= b
    ensures Copies(s, a + b) == Copies(s, a) + Copies(s, b)
    decreases b
  {
    if b > 0 {
      CopiesAdd(s, a, b - 1);
      assert Copies(s, a + b) == Copies(s, a + b - 1) + s;
    }
  }

  // ---------------------------------------------------------------------------------------
  // getEOL

  predicate IsCrOrLf(ch: int) {
    ch == CarriageReturn || ch == LineFeed
  }

  /** The index of the first `\r` or `\n` at or after `i`, or |text| when there is none. */
  function FirstBreak(text: seq<int>, i: int): (k: int)
    requires 0 <= i <= |text|
    ensures i <= k <= |text|
    ensures forall j :: i <= j < k ==> !IsCrOrLf(text[j])
    ensures k < |text| ==> IsCrOrLf(text[k])
    decreases |text| - i
  {
    if i == |text| || IsCrOrLf(text[i]) then i else FirstBreak(text, i + 1)
  }

  /** The line terminator that starts at `k`: `\r\n`, `\r` or `\n`. */
  function TerminatorAt(text: seq<int>, k: int): seq<int>
    requires 0 <= k < |text|
  {
    if text[k] == CarriageReturn then
      if k + 1 < |text| && text[k + 1] == LineFeed then [CarriageReturn, LineFeed] else [CarriageReturn]
    else [LineFeed]
  }

  /** The end-of-line sequence the formatter writes: the first terminator in the text; failing
      that `options.eol`; failing that `\n`. */
  function EolOf(options: Options, text: seq<int>): seq<int> {
    var k := FirstBreak(text, 0);
    if k < |text| then TerminatorAt(text, k)
    else if |options.eol| > 0 then options.eol
    else [LineFeed]
  }

  /** getEOL. */
  method GetEol(options: Options, text: seq<int>) returns (eol: seq<int>)
    ensures eol == EolOf(options, text)
  {
    for i := 0 to |text|
      invariant FirstBreak(text, 0) == FirstBreak(text, i)
    {
      var ch := CharAt(text, i);
      if ch == CarriageReturn {
        if i + 1 < |text| && CharAt(text, i + 1) == LineFeed {
          return [CarriageReturn, LineFeed];
        }
        return [CarriageReturn];
      } else if ch == LineFeed {
        return [LineFeed];
      }
    }
    if |options.eol| > 0 {
      return options.eol;
    }
    return [LineFeed];
  }

  /** The terminator found is the first one in the text, whatever the options say; the options
      matter only for a text without `\r` and `\n`. */
  lemma EolIsFirstTerminator(options: Options, text: seq<int>, k: int)
    requires 0 <= k <= |text|
    requires forall j :: 0 <= j < k ==> !IsCrOrLf(text[j])
    ensures k < |text| && IsCrOrLf(text[k]) ==> EolOf(options, text) == TerminatorAt(text, k)
    ensures k == |text| ==> EolOf(options, text) == if |options.eol| > 0 then options.eol else [LineFeed]
  {
  }

  // ---------------------------------------------------------------------------------------
  // computeIndentLevel

  /** The columns of the leading run of spaces and tabs, a tab counting `tabSize` columns. */
  function LeadColumns(s: seq<int>, tabSize: int): int {
    if |s| > 0 && s[0] == Space then 1 + LeadColumns(s[1..], tabSize)
    else if |s| > 0 && s[0] == Tab then tabSize + LeadColumns(s[1..], tabSize)
    else 0
  }

  /** `Math.floor(a / b)`. */
  function FloorDiv(a: int, b: int): int
    requires b != 0
  {
    if b > 0 then a / b else (-a) / (-b)
  }

  function IndentLevelOf(content: seq<int>, options: Options): int {
    FloorDiv(LeadColumns(content, TabSize(options)), TabSize(options))
  }

  /** computeIndentLevel. */
  method ComputeIndentLevel(content: seq<int>, options: Options) returns (level: int)
    ensures level == IndentLevelOf(content, options)
  {
    var i := 0;
    var nChars := 0;
    var tabSize := TabSize(options);
    while i < |content|
      invariant 0 <= i <= |content|
      invariant nChars + LeadColumns(content[i..], tabSize) == LeadColumns(content, tabSize)
    {
      assert content[i..][1..] == content[i + 1..];
      var ch := content[i];
      if ch == Space {
        nChars := nChars + 1;
      } else if ch == Tab {
        nChars := nChars + tabSize;
      } else {
        break;
      }
      i := i + 1;
    }
    level := FloorDiv(nChars, tabSize);
  }

  /** The indentation unit: tabSize spaces or one tab. */
  function IndentUnit(options: Options): seq<int> {
    if options.insertSpaces then Copies([Space], TabSize(options)) else [Tab]
  }

  predicate IsIndentChar(ch: int) {
    ch == Space || ch == Tab
  }

  lemma {:induction false} LeadColumnsAppend(a: seq<int>, b: seq<int>, tabSize: int)
    requires forall k :: 0 <= k < |a| ==> IsIndentChar(a[k])
    ensures LeadColumns(a + b, tabSize) == LeadColumns(a, tabSize) + LeadColumns(b, tabSize)
    decreases |a|
  {
    if |a| > 0 {
      assert (a + b)[1..] == a[1..] + b;
      LeadColumnsAppend(a[1..], b, tabSize);
    } else {
      assert a + b == b;
    }
  }

  lemma {:induction false} CopiesIndentChars(s: seq<int>, n: int)
    requires forall k :: 0 <= k < |s| ==> IsIndentChar(s[k])
    ensures forall k :: 0 <= k < |Copies(s, n)| ==> IsIndentChar(Copies(s, n)[k])
    decreases n
  {
    if n > 0 {
      CopiesIndentChars(s, n - 1);
    }
  }

  /** `n` indentation units are `n` times tabSize columns. */
  lemma {:induction false} IndentColumns(options: Options, n: int)
    requires TabSize(options) > 0 && 0 <= n
    ensures LeadColumns(Copies(IndentUnit(options), n), TabSize(options)) == n * TabSize(options)
    decreases n
  {
    var t := TabSize(options);
    var unit := IndentUnit(options);
    if n > 0 {
      IndentColumns(options, n - 1);
      if options.insertSpaces {
        SpacesColumns(t, t);
        CopiesIndentChars([Space], t);
      } else {
        assert LeadColumns(unit, t) == t by {
          assert unit[1..] == [];
        }
      }
      CopiesIndentChars(unit, n - 1);
      LeadColumnsAppend(Copies(unit, n - 1), unit, t);
    }
  }

  lemma {:induction false} SpacesColumns(n: int, tabSize: int)
    requires 0 <= n
    ensures LeadColumns(Copies([Space], n), tabSize) == n
    decreases n
  {
    if n > 0 {
      SpacesColumns(n - 1, tabSize);
      CopiesIndentChars([Space], n - 1);
      LeadColumnsAppend(Copies([Space], n - 1), [Space], tabSize);
      assert [Space][1..] == [];
    }
  }

  /** computeIndentLevel inverts the formatter's indentation: a line that starts with `n` units,
      followed by anything but a space or a tab, is at level `n` (for a positive tab size). */
  lemma IndentLevelOfIndent(options: Options, n: int, rest: seq<int>)
    requires TabSize(options) > 0 && 0 <= n
    requires |rest| == 0 || !IsIndentChar(rest[0])
    ensures IndentLevelOf(Copies(IndentUnit(options), n) + rest, options) == n
  {
    var t := TabSize(options);
    var unit := IndentUnit(options);
    if options.insertSpaces {
      CopiesIndentChars([Space], t);
    }
    CopiesIndentChars(unit, n);
    LeadColumnsAppend(Copies(unit, n), rest, t);
    IndentColumns(options, n);
    MultipleDiv(n, t);
  }

  lemma {:induction false} MultiplyAtLeast(d: int, t: int)
    requires 1 <= d && 0 < t
    ensures t <= t * d
    decreases d
  {
    assert t * d == t * (d - 1) + t;
    if d > 1 {
      MultiplyAtLeast(d - 1, t);
    }
  }

  lemma MultipleDiv(n: int, t: int)
    requires 0 <= n && 0 < t
    ensures (n * t) / t == n
  {
    var x := n * t;
    var q := x / t;
    var r := x % t;
    assert x == t * q + r && 0 <= r < t;
    assert t * (n - q) == r;
    if n - q >= 1 {
      MultiplyAtLeast(n - q, t);
    } else if n - q <= -1 {
      MultiplyAtLeast(q - n, t);
    }
  }

  // ---------------------------------------------------------------------------------------
  // isEOL

  /** `charAt`: the code unit at `i` as a one-unit string, or the empty string outside the text. */
  function CharAtString(text: seq<int>, i: int): (r: seq<int>)
    ensures |r| <= 1
  {
    if 0 <= i < |text| then [text[i]] else []
  }

  /** `indexOf`: the first index at or after `from` where `needle` occurs in `hay`, or -1. */
  function IndexOf(hay: seq<int>, needle: seq<int>, from: nat): (r: int)
    ensures r == -1 || (from <= r && r + |needle| <= |hay| && hay[r..r + |needle|] == needle)
    decreases |hay| - from
  {
    if from + |needle| > |hay| then -1
    else if hay[from..from + |needle|] == needle then from
    else IndexOf(hay, needle, from + 1)
  }

  /** isEOL. */
  function IsEol(text: seq<int>, offset: int): bool {
    IndexOf([CarriageReturn, LineFeed], CharAtString(text, offset), 0) != -1
  }

  /** isEOL holds on `\r` and `\n`, and also outside the text, where `charAt` yields the empty
      string, which `indexOf` finds at index 0. */
  lemma IsEolIff(text: seq<int>, offset: int)
    ensures IsEol(text, offset) <==>
            offset < 0 || |text| <= offset || text[offset] == CarriageReturn || text[offset] == LineFeed
  {
    var c := CharAtString(text, offset);
    var crlf := [CarriageReturn, LineFeed];
    if |c| == 0 {
      assert crlf[0..0] == c;
    } else {
      assert crlf[0..1] == [CarriageReturn] && crlf[1..2] == [LineFeed];
      assert IndexOf(crlf, c, 2) == -1;
      assert IndexOf(crlf, c, 1) == if c[0] == LineFeed then 1 else -1;
      assert IndexOf(crlf, c, 0) == if c[0] == CarriageReturn then 0 else IndexOf(crlf, c, 1);
    }
  }
}
