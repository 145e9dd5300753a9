/** Filters and subsequences: what a filter that keeps the order of its input returns; and
    concatenation. */
module Sequences {

  lemma SeqAssoc<T>(x: seq<T>, y: seq<T>, z: seq<T>)
    ensures (x + y) + z == x + (y + z)
  {
  }

  /** The elements of `xs` whose flag in `keep` is set, in order. */
  function Filter<T>(xs: seq<T>, keep: seq<bool>): seq<T>
    requires |keep| == |xs|
  {
    if |xs| == 0 then [] else (if keep[0] then [xs[0]] else []) + Filter(xs[1..], keep[1..])
  }

  /** `a` is `b` with some elements left out, the rest in order. */
  ghost predicate Subsequence<T>(a: seq<T>, b: seq<T>)
    decreases |b|
  {
    |a| == 0 || (|b| > 0 && ((a[0] == b[0] && Subsequence(a[1..], b[1..])) || Subsequence(a, b[1..])))
  }

  lemma {:induction false} SubsequenceRefl<T>(a: seq<T>)
    ensures Subsequence(a, a)
    decreases |a|
  {
    if |a| > 0 {
      SubsequenceRefl(a[1..]);
    }
  }

  /** Leaving out an element appended to the end. */
  lemma {:induction false} SubsequenceExtend<T>(a: seq<T>, b: seq<T>, x: T)
    requires Subsequence(a, b)
    ensures Subsequence(a, b + [x])
    decreases |b|
  {
    if |a| > 0 {
      assert (b + [x])[1..] == b[1..] + [x];
      if a[0] == b[0] && Subsequence(a[1..], b[1..]) {
        SubsequenceExtend(a[1..], b[1..], x);
      } else {
        SubsequenceExtend(a, b[1..], x);
      }
    }
  }

  /** Keeping an element appended to the end. */
  lemma {:induction false} SubsequenceSnoc<T>(a: seq<T>, b: seq<T>, x: T)
    requires Subsequence(a, b)
    ensures Subsequence(a + [x], b + [x])
    decreases |b|
  {
    if |b| > 0 {
      assert (b + [x])[1..] == b[1..] + [x];
    }
    if |a| == 0 {
      if |b| > 0 {
        SubsequenceSnoc(a, b[1..], x);
        assert a + [x] == [x];
      }
    } else {
      assert (a + [x])[1..] == a[1..] + [x];
      if a[0] == b[0] && Subsequence(a[1..], b[1..]) {
        SubsequenceSnoc(a[1..], b[1..], x);
      } else {
        SubsequenceSnoc(a, b[1..], x);
      }
    }
  }
}
