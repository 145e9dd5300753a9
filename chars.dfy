/** Text is a sequence of UTF-16 code units. This module holds the character codes the scanner
    names and the character-class predicates of the scanner (and the two regular-expression
    classes `\s` and `\w` that the parser and the folding-range extractor use). */
module Chars {

  /** `charCodeAt` past either end of the text yields NaN, which equals no character code and
      lies in no character class; -1 stands for it. */
  const NaN: int := -1

  function CharAt(text: seq<int>, i: int): (c: int)
    ensures c == NaN || (0 <= i < |text| && c == text[i])
  {
    if 0 <= i < |text| then text[i] else NaN
  }

  /** `String.prototype.substring(start, end)`: both bounds clamped into [0, |text|], swapped
      when start > end. */
  function Substring(text: seq<int>, start: int, end: int): (r: seq<int>)
    ensures 0 <= start <= end <= |text| ==> r == text[start..end]
    ensures |r| <= |text|
  {
    var a := Clamp(start, |text|);
    var b := Clamp(end, |text|);
    if a <= b then text[a..b] else text[b..a]
  }

  function Clamp(i: int, n: nat): (r: nat)
    ensures r <= n
    ensures 0 <= i <= n ==> r == i
  {
    if i < 0 then 0 else if i > n then n else i
  }

  const Tab: int := 9
  const LineFeed: int := 10
  const VerticalTab: int := 11
  const FormFeed: int := 12
  const CarriageReturn: int := 13
  const Space: int := 32
  const DoubleQuote: int := 34
  const Hash: int := 35
  const OpenParen: int := 40
  const CloseParen: int := 41
  const Asterisk: int := 42
  const Plus: int := 43
  const Comma: int := 44
  const Minus: int := 45
  const Dot: int := 46
  const Slash: int := 47
  const Digit0: int := 48
  const Digit9: int := 57
  const Colon: int := 58
  const Semicolon: int := 59
  const EqualsSign: int := 61
  const UpperA: int := 65
  const UpperE: int := 69
  const UpperF: int := 70
  const UpperZ: int := 90
  const OpenBracket: int := 91
  const Backslash: int := 92
  const CloseBracket: int := 93
  const Underscore: int := 95
  const LowerA: int := 97
  const LowerB: int := 98
  const LowerE: int := 101
  const LowerF: int := 102
  const LowerN: int := 110
  const LowerR: int := 114
  const LowerT: int := 116
  const LowerU: int := 117
  const LowerZ: int := 122
  const OpenBrace: int := 123
  const CloseBrace: int := 125
  const NonBreakingSpace: int := 160
  const Ogham: int := 5760
  const EnQuad: int := 8192
  const ZeroWidthSpace: int := 8203
  const LineSeparator: int := 8232
  const ParagraphSeparator: int := 8233
  const NarrowNoBreakSpace: int := 8239
  const MathematicalSpace: int := 8287
  const IdeographicSpace: int := 12288
  const ByteOrderMark: int := 65279

  /** The text `true` and the text `false`. */
  const TrueText: seq<int> := [LowerT, LowerR, LowerU, LowerE]
  const FalseText: seq<int> := [LowerF, LowerA, 108, 115, LowerE]

  /** The scanner's fixed whitespace set; it holds no line terminator. */
  predicate IsWhiteSpace(ch: int) {
    ch == Space || ch == Tab || ch == VerticalTab || ch == FormFeed ||
    ch == NonBreakingSpace || ch == Ogham || ch == EnQuad || ch == ZeroWidthSpace ||
    ch == NarrowNoBreakSpace || ch == MathematicalSpace || ch == IdeographicSpace ||
    ch == ByteOrderMark
  }

  predicate IsLineBreak(ch: int) {
    ch == LineFeed || ch == CarriageReturn || ch == LineSeparator || ch == ParagraphSeparator
  }

  predicate IsDigit(ch: int) {
    Digit0 <= ch <= Digit9
  }

  /** The value of a hexadecimal digit (either case), or -1 for any other code. */
  function HexDigitValue(ch: int): (v: int)
    ensures -1 <= v < 16
  {
    if Digit0 <= ch <= Digit9 then ch - Digit0
    else if UpperA <= ch <= UpperF then ch - UpperA + 10
    else if LowerA <= ch <= LowerF then ch - LowerA + 10
    else -1
  }

  /** The two revisions of the scanner differ in the characters a property name may hold:
      the TypeScript revision accepts `-`, the compiled revision does not. */
  datatype Revision = TypeScriptRevision | CompiledRevision

  predicate IsValidPropertyCharacterStart(rev: Revision, ch: int) {
    (UpperA <= ch <= UpperZ) || (LowerA <= ch <= LowerZ) || ch == Underscore ||
    (rev == TypeScriptRevision && ch == Minus)
  }

  predicate IsValidPropertyCharacter(rev: Revision, ch: int) {
    IsValidPropertyCharacterStart(rev, ch) || IsDigit(ch)
  }

  /** A character that may continue a run of unknown content: anything but whitespace, a line
      break and the eight delimiters `} ] { [ " : , /`. */
  predicate IsUnknownContentCharacter(ch: int) {
    !IsWhiteSpace(ch) && !IsLineBreak(ch) &&
    ch != CloseBrace && ch != CloseBracket && ch != OpenBrace && ch != OpenBracket &&
    ch != DoubleQuote && ch != Colon && ch != Comma && ch != Slash
  }

  /** The ECMAScript regular-expression class `\s` (WhiteSpace and LineTerminator). */
  predicate IsRegExpSpace(ch: int) {
    ch == Tab || ch == LineFeed || ch == VerticalTab || ch == FormFeed || ch == CarriageReturn ||
    ch == Space || ch == NonBreakingSpace || ch == Ogham || (EnQuad <= ch <= 8202) ||
    ch == LineSeparator || ch == ParagraphSeparator || ch == NarrowNoBreakSpace ||
    ch == MathematicalSpace || ch == IdeographicSpace || ch == ByteOrderMark
  }

  /** The ECMAScript regular-expression class `\w`. */
  predicate IsRegExpWordCharacter(ch: int) {
    (UpperA <= ch <= UpperZ) || (LowerA <= ch <= LowerZ) || IsDigit(ch) || ch == Underscore
  }
}
