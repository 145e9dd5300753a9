/** doValidation: the parser's problems, as the client receives them, with duplicates removed.
    Two problems are duplicates when they start at the same line and character and carry the
    same message; of each group the first one is kept, in the parser's order. */
module Validation {
  import opened Kinds
  import opened Chars
  import opened Sequences
  import ParserSpec
  import Parser

  datatype Position = Position(line: nat, character: nat)
  datatype Range = Range(start: Position, end: Position)
  datatype Severity = Error | Warning | Information | Hint

  /** A diagnostic as sent to the client. */
  datatype Problem = Problem(range: Range, message: string, severity: Severity, code: ErrorCode, source: string)

  /** The problem the parser reports for a diagnostic it found: the offsets become positions of
      the document, and the severity is Error. */
  function ToProblem(positionAt: int -> Position, languageId: string, d: ParserSpec.Diagnostic): (p: Problem)
    ensures p.range.start == positionAt(d.start) && p.range.end == positionAt(d.end)
    ensures p.message == d.message && p.code == d.code && p.severity == Error
  {
    Problem(Range(positionAt(d.start), positionAt(d.end)), d.message, Error, d.code, languageId)
  }

  // ---------------------------------------------------------------------------------------
  // The signature

  function Digit(d: int): char
    requires 0 <= d < 10
  {
    (48 + d) as char
  }

  /** A non-negative integer written in decimal, as JavaScript writes a number. */
  function DecimalText(n: nat): seq<char>
    decreases n
  {
    if n < 10 then [Digit(n)] else DecimalText(n / 10) + [Digit(n % 10)]
  }

  /** The key under which a problem is recorded: its start line, start character and message,
      separated by spaces. */
  function Signature(p: Problem): string {
    DecimalText(p.range.start.line) + " " + DecimalText(p.range.start.character) + " " + p.message
  }

  lemma {:induction false} DecimalTextShape(n: nat)
    ensures 1 <= |DecimalText(n)| && ' ' !in DecimalText(n)
    ensures 10 <= n ==> 2 <= |DecimalText(n)|
    decreases n
  {
    if 10 <= n {
      DecimalTextShape(n / 10);
    }
  }

  /** Different numbers are written differently. */
  lemma {:induction false} DecimalTextInjective(m: nat, n: nat)
    requires DecimalText(m) == DecimalText(n)
    ensures m == n
    decreases n
  {
    DecimalTextShape(m);
    DecimalTextShape(n);
    if 10 <= m && 10 <= n {
      var t := DecimalText(m);
      assert t[..|t| - 1] == DecimalText(m / 10) && t[|t| - 1] == Digit(m % 10);
      assert DecimalText(n)[..|t| - 1] == DecimalText(n / 10) && DecimalText(n)[|t| - 1] == Digit(n % 10);
      DecimalTextInjective(m / 10, n / 10);
    }
  }

  /** In text with no space followed by a space, that space is the first one. */
  lemma FirstSpace(u: string, r: string)
    requires ' ' !in u
    ensures (u + " " + r)[|u|] == ' '
    ensures forall i :: 0 <= i < |u| ==> (u + " " + r)[i] != ' '
  {
    assert forall i :: 0 <= i < |u| ==> (u + " " + r)[i] == u[i];
  }

  /** Text up to the first space, and the text after it, are recovered from the whole. */
  lemma SplitAtSpace(u1: string, r1: string, u2: string, r2: string)
    requires ' ' !in u1 && ' ' !in u2
    requires u1 + " " + r1 == u2 + " " + r2
    ensures u1 == u2 && r1 == r2
  {
    var w := u1 + " " + r1;
    FirstSpace(u1, r1);
    FirstSpace(u2, r2);
    assert |u1| == |u2|;
    assert u1 == w[..|u1|] == u2;
    assert r1 == w[|u1| + 1..] == r2;
  }

  /** Two problems share a signature exactly when they start at the same place with the same
      message: the end, the severity, the code and the source play no part. */
  lemma SignatureInjective(a: Problem, b: Problem)
    ensures Signature(a) == Signature(b) <==> a.range.start == b.range.start && a.message == b.message
  {
    if Signature(a) == Signature(b) {
      var la, ca := DecimalText(a.range.start.line), DecimalText(a.range.start.character);
      var lb, cb := DecimalText(b.range.start.line), DecimalText(b.range.start.character);
      DecimalTextShape(a.range.start.line);
      DecimalTextShape(a.range.start.character);
      DecimalTextShape(b.range.start.line);
      DecimalTextShape(b.range.start.character);
      assert la + " " + (ca + " " + a.message) == Signature(a);
      assert lb + " " + (cb + " " + b.message) == Signature(b);
      SplitAtSpace(la, ca + " " + a.message, lb, cb + " " + b.message);
      SplitAtSpace(ca, a.message, cb, b.message);
      DecimalTextInjective(a.range.start.line, b.range.start.line);
      DecimalTextInjective(a.range.start.character, b.range.start.character);
    }
  }

  // ---------------------------------------------------------------------------------------
  // De-duplication

  /** The signatures of a sequence of problems. */
  ghost function Signatures(ps: seq<Problem>): set<string> {
    set k | 0 <= k < |ps| :: Signature(ps[k])
  }

  /** The problem at index `k` is the first with its signature. */
  ghost predicate First(ps: seq<Problem>, k: int)
    requires 0 <= k < |ps|
  {
    forall j :: 0 <= j < k ==> Signature(ps[j]) != Signature(ps[k])
  }

  /** The first problem of each signature, in the order given. */
  ghost function KeepFirst(ps: seq<Problem>): seq<Problem>
    decreases |ps|
  {
    if |ps| == 0 then []
    else
      var init := ps[..|ps| - 1];
      KeepFirst(init) + (if First(ps, |ps| - 1) then [ps[|ps| - 1]] else [])
  }

  lemma SignaturesSnoc(ps: seq<Problem>, p: Problem)
    ensures Signatures(ps + [p]) == Signatures(ps) + {Signature(p)}
  {
    var qs := ps + [p];
    assert forall k :: 0 <= k < |ps| ==> qs[k] == ps[k];
    assert qs[|ps|] == p;
  }

  lemma FirstIffNew(ps: seq<Problem>)
    requires |ps| > 0
    ensures First(ps, |ps| - 1) <==> Signature(ps[|ps| - 1]) !in Signatures(ps[..|ps| - 1])
  {
    var init := ps[..|ps| - 1];
    assert forall j :: 0 <= j < |init| ==> init[j] == ps[j];
  }

  /** The loop of doValidation: a problem is added unless its signature has been recorded. */
  method RemoveDuplicates(problems: seq<Problem>) returns (diagnostics: seq<Problem>)
    ensures diagnostics == KeepFirst(problems)
  {
    diagnostics := [];
    var added: map<string, bool> := map[];
    for i := 0 to |problems|
      invariant diagnostics == KeepFirst(problems[..i])
      invariant added.Keys == Signatures(problems[..i])
      invariant forall s :: s in added ==> added[s]
    {
      var problem := problems[i];
      var signature := Signature(problem);
      assert problems[..i + 1] == problems[..i] + [problem];
      SignaturesSnoc(problems[..i], problem);
      FirstIffNew(problems[..i + 1]);
      assert problems[..i + 1][..i] == problems[..i];
      if !(signature in added && added[signature]) {
        added := added[signature := true];
        diagnostics := diagnostics + [problem];
      }
    }
    assert problems[..|problems|] == problems;
  }

  /** doValidation: parse the document, then remove duplicate problems. */
  method DoValidation(text: seq<int>, rev: Revision, positionAt: int -> Position, languageId: string)
    returns (diagnostics: seq<Problem>)
    ensures diagnostics == KeepFirst(Reported(text, rev, positionAt, languageId))
  {
    var found, _ := Parser.ParseLibConfigDocument(text, rev);
    var problems := seq(|found|, k requires 0 <= k < |found| => ToProblem(positionAt, languageId, found[k]));
    diagnostics := RemoveDuplicates(problems);
  }

  /** The problems the parser reports for a document. */
  ghost function Reported(text: seq<int>, rev: Revision, positionAt: int -> Position, languageId: string): seq<Problem> {
    var found := ParserSpec.ParseDocumentP(rev, text).problems;
    seq(|found|, k requires 0 <= k < |found| => ToProblem(positionAt, languageId, found[k]))
  }

  // ---------------------------------------------------------------------------------------
  // What the de-duplication promises

  /** The problems kept are problems given, in their order. */
  lemma {:induction false} KeepFirstSubsequence(ps: seq<Problem>)
    ensures Subsequence(KeepFirst(ps), ps)
    decreases |ps|
  {
    if |ps| > 0 {
      var init, p := ps[..|ps| - 1], ps[|ps| - 1];
      KeepFirstSubsequence(init);
      assert init + [p] == ps;
      if First(ps, |ps| - 1) {
        assert KeepFirst(ps) == KeepFirst(init) + [p];
        SubsequenceSnoc(KeepFirst(init), init, p);
      } else {
        assert KeepFirst(ps) == KeepFirst(init);
        SubsequenceExtend(KeepFirst(init), init, p);
      }
    }
  }

  /** Every signature given is kept, and no other. */
  lemma {:induction false} KeepFirstSignatures(ps: seq<Problem>)
    ensures Signatures(KeepFirst(ps)) == Signatures(ps)
    decreases |ps|
  {
    if |ps| > 0 {
      var init, p := ps[..|ps| - 1], ps[|ps| - 1];
      KeepFirstSignatures(init);
      assert init + [p] == ps;
      SignaturesSnoc(init, p);
      FirstIffNew(ps);
      if First(ps, |ps| - 1) {
        assert KeepFirst(ps) == KeepFirst(init) + [p];
        SignaturesSnoc(KeepFirst(init), p);
      } else {
        assert KeepFirst(ps) == KeepFirst(init);
      }
    }
  }

  /** No two problems kept share a signature. */
  lemma {:induction false} KeepFirstDistinct(ps: seq<Problem>)
    ensures var out := KeepFirst(ps);
      forall i, j :: 0 <= i < j < |out| ==> Signature(out[i]) != Signature(out[j])
    decreases |ps|
  {
    if |ps| > 0 {
      var init, p := ps[..|ps| - 1], ps[|ps| - 1];
      KeepFirstDistinct(init);
      if First(ps, |ps| - 1) {
        var out := KeepFirst(ps);
        assert out == KeepFirst(init) + [p];
        KeepFirstSignatures(init);
        FirstIffNew(ps);
        forall i | 0 <= i < |out| - 1
          ensures Signature(out[i]) != Signature(p)
        {
          assert out[i] == KeepFirst(init)[i];
          assert Signature(out[i]) in Signatures(KeepFirst(init));
        }
      } else {
        assert KeepFirst(ps) == KeepFirst(init);
      }
    }
  }

  /** The first problem of every signature is kept. */
  lemma {:induction false} FirstKept(ps: seq<Problem>, k: int)
    requires 0 <= k < |ps| && First(ps, k)
    ensures ps[k] in KeepFirst(ps)
    decreases |ps|
  {
    if k < |ps| - 1 {
      var init := ps[..|ps| - 1];
      assert init[k] == ps[k];
      assert First(init, k);
      FirstKept(init, k);
    }
  }

  /** A later problem is dropped when an earlier one starts at the same place with the same
      message, whatever its end, severity or code: the number kept is the number of distinct
      start positions and messages given, each once. */
  lemma KeptUniquePerStart(ps: seq<Problem>)
    ensures var out := KeepFirst(ps);
      (forall i, j :: 0 <= i < j < |out| ==> out[i].range.start != out[j].range.start || out[i].message != out[j].message) &&
      (forall k :: 0 <= k < |ps| ==> exists i :: 0 <= i < |out| && out[i].range.start == ps[k].range.start && out[i].message == ps[k].message)
  {
    var out := KeepFirst(ps);
    KeepFirstDistinct(ps);
    KeepFirstSignatures(ps);
    forall i, j | 0 <= i < j < |out|
      ensures out[i].range.start != out[j].range.start || out[i].message != out[j].message
    {
      SignatureInjective(out[i], out[j]);
    }
    forall k | 0 <= k < |ps|
      ensures exists i :: 0 <= i < |out| && out[i].range.start == ps[k].range.start && out[i].message == ps[k].message
    {
      assert Signature(ps[k]) in Signatures(out);
      var i :| 0 <= i < |out| && Signature(out[i]) == Signature(ps[k]);
      SignatureInjective(out[i], ps[k]);
    }
  }

  /** doValidation reports every start position and message the parser found, once each, in
      the parser's order, with the first problem found for each. */
  lemma ValidationReport(text: seq<int>, rev: Revision, positionAt: int -> Position, languageId: string)
    ensures var ps := Reported(text, rev, positionAt, languageId);
      var out := KeepFirst(ps);
      Subsequence(out, ps) &&
      (forall i, j :: 0 <= i < j < |out| ==> Signature(out[i]) != Signature(out[j])) &&
      Signatures(out) == Signatures(ps) &&
      (forall k :: 0 <= k < |ps| && First(ps, k) ==> ps[k] in out)
  {
    var ps := Reported(text, rev, positionAt, languageId);
    KeepFirstSubsequence(ps);
    KeepFirstDistinct(ps);
    KeepFirstSignatures(ps);
    forall k | 0 <= k < |ps| && First(ps, k)
      ensures ps[k] in KeepFirst(ps)
    {
      FirstKept(ps, k);
    }
  }
}
