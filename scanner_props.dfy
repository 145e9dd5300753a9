/** What scanNumber and scanString promise, stated over the characters of the text rather than
    over the scanner's steps: where a number's integer part, fraction and exponent end and when
    it is cut short, and where a string literal stops, what it decodes to and which error it
    leaves. */
module ScannerProperties {
  import opened Kinds
  import opened Chars
  import opened ScannerSpec

  /** text[a..b] holds only decimal digits. */
  predicate DigitsBetween(text: seq<int>, a: int, b: int) {
    0 <= a <= b <= |text| && forall k :: a <= k < b ==> IsDigit(text[k])
  }

  /** A run of class `cls` from `p` that stops at `e` is the maximal one. */
  lemma {:induction false} RunEndIs(text: seq<int>, p: int, e: int, cls: CharClass)
    requires 0 <= p <= e <= |text|
    requires forall k :: p <= k < e ==> InClass(cls, text[k])
    requires e == |text| || !InClass(cls, text[e])
    ensures RunEnd(text, p, cls) == e
    decreases e - p
  {
    if p < e {
      RunEndIs(text, p + 1, e, cls);
    }
  }

  // ---------------------------------------------------------------------------------------
  // Numbers

  /** The integer part of a number that starts at `start` ends at `i`: a leading `0` is the
      whole integer part; any other digit starts a run of digits that goes as far as it can. */
  predicate IntegerPartEnds(text: seq<int>, start: int, i: int) {
    0 <= start < i && DigitsBetween(text, start, i) &&
    if text[start] == Digit0 then i == start + 1 else !IsDigit(CharAt(text, i))
  }

  /** The mantissa (integer part and fraction) of that number ends at `m`: after a `.`, at
      least one digit and every digit that follows; without a `.`, at the integer part's end. */
  predicate MantissaEnds(text: seq<int>, start: int, i: int, m: int) {
    IntegerPartEnds(text, start, i) &&
    if CharAt(text, i) == Dot then i + 1 < m && DigitsBetween(text, i + 1, m) && !IsDigit(CharAt(text, m))
    else m == i
  }

  /** Every number has exactly one integer part. */
  lemma IntegerPart(text: seq<int>, start: int) returns (i: int)
    requires 0 <= start < |text| && IsDigit(text[start])
    ensures IntegerPartEnds(text, start, i)
    ensures forall j :: IntegerPartEnds(text, start, j) ==> j == i
  {
    if text[start] == Digit0 {
      i := start + 1;
    } else {
      i := RunEnd(text, start + 1, DigitClass);
      forall j | IntegerPartEnds(text, start, j)
        ensures j == i
      {
        RunEndIs(text, start + 1, j, DigitClass);
      }
    }
  }

  /** MantissaSpec reads the mantissa: a `.` left without a digit after it is the dangling dot,
      and the mantissa ends just after it; otherwise MantissaSpec ends exactly where the
      mantissa does. */
  lemma MantissaMeaning(text: seq<int>, start: int, i: int, m: int)
    requires 0 <= start < |text| && IsDigit(text[start])
    requires IntegerPartEnds(text, start, i)
    ensures MantissaSpec(text, start).danglingDot <==> CharAt(text, i) == Dot && !IsDigit(CharAt(text, i + 1))
    ensures MantissaSpec(text, start).danglingDot ==> MantissaSpec(text, start).end == i + 1
    ensures MantissaSpec(text, start) == Mantissa(m, false) <==> MantissaEnds(text, start, i, m)
  {
    var i' := IntegerPart(text, start);
    assert i' == i;
    if text[start] != Digit0 {
      RunEndIs(text, start + 1, i, DigitClass);
    }
    if CharAt(text, i) == Dot && IsDigit(CharAt(text, i + 1)) {
      var e := RunEnd(text, i + 2, DigitClass);
      assert MantissaSpec(text, start) == Mantissa(e, false);
      if MantissaEnds(text, start, i, m) {
        RunEndIs(text, i + 2, m, DigitClass);
      }
    }
  }

  /** The exponent after a mantissa that ends at `m`: without `e`/`E` there is none; an `e` or
      `E` (and an optional sign) without a digit after it cuts the number short, the value
      ending with the mantissa and the scan going on after the sign; otherwise every digit
      that follows belongs to the number. */
  lemma ExponentMeaning(text: seq<int>, m: int)
    requires 0 <= m <= |text|
    ensures var r := ExponentScan(text, m);
      var ch := CharAt(text, m);
      var d := if CharAt(text, m + 1) == Plus || CharAt(text, m + 1) == Minus then m + 2 else m + 1;
      (ch != UpperE && ch != LowerE ==> r == NumberScan(m, m, ScanError.None)) &&
      ((ch == UpperE || ch == LowerE) && !IsDigit(CharAt(text, d)) ==>
         r == NumberScan(d, m, ScanError.UnexpectedEndOfNumber)) &&
      ((ch == UpperE || ch == LowerE) && IsDigit(CharAt(text, d)) ==>
         r.error == ScanError.None && d < r.end == r.valueEnd && DigitsBetween(text, d, r.end) &&
         !IsDigit(CharAt(text, r.end)))
  {
  }

  /** scanNumber from a digit at `start`: a dangling dot ends the number there with
      UnexpectedEndOfNumber (the dot belongs to its text); otherwise the exponent is read after
      the whole mantissa. */
  lemma NumberScanMeaning(text: seq<int>, start: int, i: int, m: int)
    requires 0 <= start < |text| && IsDigit(text[start])
    requires IntegerPartEnds(text, start, i)
    ensures CharAt(text, i) == Dot && !IsDigit(CharAt(text, i + 1)) ==>
              NumberScanSpec(text, start) == NumberScan(i + 1, i + 1, ScanError.UnexpectedEndOfNumber)
    ensures MantissaEnds(text, start, i, m) ==> NumberScanSpec(text, start) == ExponentScan(text, m)
  {
    MantissaMeaning(text, start, i, m);
  }

  /** A leading `0` is a number of its own: a digit after it starts the next token. */
  lemma LeadingZeroAlone(text: seq<int>, start: int)
    requires 0 <= start < |text| && text[start] == Digit0 && IsDigit(CharAt(text, start + 1))
    ensures NumberScanSpec(text, start) == NumberScan(start + 1, start + 1, ScanError.None)
  {
  }

  /** A number scanned without error is returned whole; one cut short is returned up to where
      its value ends, which is never after where the scan stops. */
  lemma NumberErrorCases(text: seq<int>, start: int)
    requires 0 <= start < |text| && IsDigit(text[start])
    ensures var r := NumberScanSpec(text, start);
      (r.error == ScanError.None ==> r.valueEnd == r.end) &&
      (r.valueEnd < r.end ==> r.error == ScanError.UnexpectedEndOfNumber)
  {
    var m := MantissaSpec(text, start);
    if !m.danglingDot {
      ExponentMeaning(text, m.end);
    }
  }

  // ---------------------------------------------------------------------------------------
  // Strings

  /** text[a..b] holds a control character (a code from 0 to 0x1f). */
  predicate HasControl(text: seq<int>, a: int, b: int)
    requires 0 <= a <= b <= |text|
  {
    exists k :: a <= k < b && 0 <= text[k] <= 0x1f
  }

  /** The error a run of plain characters leaves: InvalidCharacter if it holds a control
      character. */
  function PlainError(text: seq<int>, a: int, b: int): ScanError
    requires 0 <= a <= b <= |text|
  {
    if HasControl(text, a, b) then ScanError.InvalidCharacter else ScanError.None
  }

  /** The error a plain character raises: InvalidCharacter for a control character. */
  function PlainCharError(ch: int): ScanError {
    if 0 <= ch <= 0x1f then ScanError.InvalidCharacter else ScanError.None
  }

  /** A plain character is decoded as itself, ahead of what follows it. */
  lemma PlainStep(text: seq<int>, q: int)
    requires 0 <= q < |text| && IsPlainStringCharacter(text[q])
    ensures var r1 := StringScanSpec(text, q + 1);
      StringScanSpec(text, q) == StringScan(r1.end, [text[q]] + r1.value, LastError(PlainCharError(text[q]), r1.error))
  {
    assert StringStepAt(text, q) == Continue(q + 1, [text[q]], PlainCharError(text[q]));
  }

  /** The error of a run is that of its first character followed by that of the rest. */
  lemma PlainErrorCons(text: seq<int>, q: int, e: int)
    requires 0 <= q < e <= |text|
    ensures PlainError(text, q, e) == LastError(PlainCharError(text[q]), PlainError(text, q + 1, e))
  {
    if HasControl(text, q + 1, e) {
      var k :| q + 1 <= k < e && 0 <= text[k] <= 0x1f;
      assert q <= k < e;
    }
    if 0 <= text[q] <= 0x1f {
      assert HasControl(text, q, e);
    } else if HasControl(text, q, e) {
      var k :| q <= k < e && 0 <= text[k] <= 0x1f;
      assert k != q;
    }
  }

  /** The first character of a run, followed by the rest of the run and what comes after it. */
  lemma PlainRunJoin(text: seq<int>, q: int, e: int, r: StringScan, r1: StringScan, rest: StringScan)
    requires 0 <= q < e <= |text|
    requires r == StringScan(r1.end, [text[q]] + r1.value, LastError(PlainCharError(text[q]), r1.error))
    requires r1.end == rest.end && r1.value == text[q + 1..e] + rest.value
    requires r1.error == LastError(PlainError(text, q + 1, e), rest.error)
    ensures r.end == rest.end && r.value == text[q..e] + rest.value
    ensures r.error == LastError(PlainError(text, q, e), rest.error)
  {
    PlainErrorCons(text, q, e);
    assert [text[q]] + (text[q + 1..e] + rest.value) == text[q..e] + rest.value;
    LastErrorAssociative(PlainCharError(text[q]), PlainError(text, q + 1, e), rest.error);
  }

  /** A run of plain characters is copied as it is: scanning a literal from `q` decodes
      text[q..e] and then whatever scanning from `e` decodes, and raises InvalidCharacter for a
      control character in the run, the scan going on after it. */
  lemma {:induction false} PlainRunCopied(text: seq<int>, q: int, e: int)
    requires 0 <= q <= e <= |text|
    requires forall k :: q <= k < e ==> IsPlainStringCharacter(text[k])
    ensures var r := StringScanSpec(text, q);
      var rest := StringScanSpec(text, e);
      r.end == rest.end && r.value == text[q..e] + rest.value &&
      r.error == LastError(PlainError(text, q, e), rest.error)
    decreases e - q
  {
    if q < e {
      PlainRunCopied(text, q + 1, e);
      PlainStep(text, q);
      PlainRunJoin(text, q, e, StringScanSpec(text, q), StringScanSpec(text, q + 1), StringScanSpec(text, e));
    } else {
      assert text[q..e] == [];
      assert !HasControl(text, q, e);
    }
  }

  /** A literal without a backslash up to its closing quote decodes to the characters between
      the quotes, scanning stops just after the quote, and the only possible error is
      InvalidCharacter, raised exactly when a control character appears. */
  lemma PlainStringDecodes(text: seq<int>, q: int, e: int)
    requires 0 <= q <= e < |text| && text[e] == DoubleQuote
    requires forall k :: q <= k < e ==> IsPlainStringCharacter(text[k])
    ensures StringScanSpec(text, q) == StringScan(e + 1, text[q..e], PlainError(text, q, e))
  {
    PlainRunCopied(text, q, e);
    assert StringStepAt(text, e) == Stop(e + 1, ScanError.None);
    assert text[q..e] + [] == text[q..e];
  }

  /** A literal without a backslash that reaches the end of the text or a line feed or carriage
      return is unterminated: scanning stops there (before the line break), keeps what it read
      and reports UnexpectedEndOfString. */
  lemma PlainStringUnterminated(text: seq<int>, q: int, e: int)
    requires 0 <= q <= e <= |text|
    requires e == |text| || text[e] == LineFeed || text[e] == CarriageReturn
    requires forall k :: q <= k < e ==> IsPlainStringCharacter(text[k])
    ensures StringScanSpec(text, q) == StringScan(e, text[q..e], ScanError.UnexpectedEndOfString)
  {
    PlainRunCopied(text, q, e);
    assert StringStepAt(text, e) == Stop(e, ScanError.UnexpectedEndOfString);
    assert text[q..e] + [] == text[q..e];
  }

  /** A control character other than a line feed or carriage return is kept, raises
      InvalidCharacter, and the scan goes on after it. */
  lemma ControlCharacterKept(text: seq<int>, q: int)
    requires 0 <= q < |text| && 0 <= text[q] <= 0x1f && text[q] != LineFeed && text[q] != CarriageReturn
    ensures var r := StringScanSpec(text, q);
      var rest := StringScanSpec(text, q + 1);
      r.end == rest.end && r.value == [text[q]] + rest.value && r.error != ScanError.None &&
      (rest.error == ScanError.None ==> r.error == ScanError.InvalidCharacter)
  {
    PlainRunCopied(text, q, q + 1);
    assert HasControl(text, q, q + 1);
    assert text[q..q + 1] == [text[q]];
  }

  /** Every escape: a simple one stands for its character; `\u` with four hexadecimal digits
      stands for the code they denote, and with fewer stands for nothing, reports
      InvalidUnicode and stops at the first code that is not a digit; any other letter reports
      InvalidEscapeCharacter and stands for nothing. */
  lemma EscapeMeaning(text: seq<int>, q: int)
    requires 0 <= q < |text|
    ensures var r := EscapeSpec(text, q);
      (IsSimpleEscape(text[q]) ==> r == EscapeScan(q + 1, [SimpleEscapeValue(text[q])], ScanError.None)) &&
      (text[q] == LowerU && q + 5 <= |text| && (forall k :: q + 1 <= k < q + 5 ==> HexDigitValue(text[k]) >= 0) ==>
         r == EscapeScan(q + 5, [HexValue(text, q + 1, q + 5)], ScanError.None)) &&
      (text[q] == LowerU && !(q + 5 <= |text| && forall k :: q + 1 <= k < q + 5 ==> HexDigitValue(text[k]) >= 0) ==>
         r.decoded == [] && r.error == ScanError.InvalidUnicode && q + 1 <= r.end < q + 5 &&
         HexDigitValue(CharAt(text, r.end)) < 0) &&
      (!IsSimpleEscape(text[q]) && text[q] != LowerU ==> r == EscapeScan(q + 1, [], ScanError.InvalidEscapeCharacter))
  {
    if text[q] == LowerU {
      var hex := ScanHexDigitsSpec(text, q + 1, 4, true);
      ScanHexDigitsFacts(text, q + 1, 4, true);
    }
  }

  /** Where scanString stops, over the whole domain: just after a closing quote, with any error
      but UnexpectedEndOfString; at the end of the text; or before a line feed or carriage
      return. The last two report UnexpectedEndOfString. */
  lemma {:induction false} StringStopCases(text: seq<int>, q: int)
    requires 0 <= q <= |text|
    ensures var r := StringScanSpec(text, q);
      (q < r.end && text[r.end - 1] == DoubleQuote && r.error != ScanError.UnexpectedEndOfString) ||
      (r.end == |text| && r.error == ScanError.UnexpectedEndOfString) ||
      (r.end < |text| && (text[r.end] == LineFeed || text[r.end] == CarriageReturn) &&
       r.error == ScanError.UnexpectedEndOfString)
    decreases |text| - q
  {
    match StringStepAt(text, q)
    case Stop(end, error) =>
    case Continue(next, decoded, error) =>
      StringStopCases(text, next);
      if q + 1 <= |text| - 1 && text[q] == Backslash {
        EscapeMeaning(text, q + 1);
      }
  }
}
