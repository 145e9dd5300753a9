/** What the tree node containers of both revisions share: the list of error callbacks of
    BaseLibConfigNodeImpl and the calls made to them, the node kinds, and the rules by which an
    object node rejects a duplicate name and an array node rejects an element of another type. */
module NodeBase {
  import opened Sequences

  /** A registered error callback, known by its identity. */
  type CallbackId = nat

  /** One call of a callback, with what it was passed (`R`: the message in one revision, the
      message with the offending child's offset and length in the other). */
  datatype Call<R> = Call(callback: CallbackId, report: R)

  /** The kinds of node (the `type` tag of each node class). */
  datatype NodeType = ObjectType | ArrayType | ListType | PropertyType | StringType | NumberType | BooleanType

  /** The kinds a scalar node, the only kind an array holds, can have. */
  datatype ScalarType = ScalarString | ScalarNumber | ScalarBoolean

  /** A child node as a list sees it. */
  datatype NodeInfo = NodeInfo(kind: NodeType, offset: int, length: int)

  /** A scalar child node as an array sees it. */
  datatype Scalar = Scalar(kind: ScalarType, offset: int, length: int)

  function TypeName(t: ScalarType): string {
    match t
    case ScalarString => "string"
    case ScalarNumber => "number"
    case ScalarBoolean => "boolean"
  }

  function DuplicateMessage(name: string): string {
    "Duplicate properties with name '" + name + "' found!"
  }

  function MismatchMessage(t: ScalarType): string {
    "Array must have consistent type: first element type is '" + TypeName(t) + "'"
  }

  const AddFailedMessage := "Error adding child to list"

  // ---------------------------------------------------------------------------------------
  // Error callbacks

  /** The errorCallbacks list of BaseLibConfigNodeImpl with the calls made to its callbacks so
      far. A node of the TypeScript revision owns one; every node of the compiled revision uses
      the same one. */
  class ErrorCallbacks<R> {
    var callbacks: seq<CallbackId>
    var calls: seq<Call<R>>

    constructor ()
      ensures callbacks == [] && calls == []
    {
      callbacks := [];
      calls := [];
    }

    /** addErrorCallback. */
    method AddErrorCallback(func: CallbackId)
      modifies this
      ensures callbacks == old(callbacks) + [func] && calls == old(calls)
    {
      callbacks := callbacks + [func];
    }

    /** Error: every callback, in registration order, is called with the report. */
    method Error(report: R)
      modifies this
      ensures callbacks == old(callbacks) && calls == old(calls) + CallsFor(callbacks, report)
    {
      for i := 0 to |callbacks|
        invariant callbacks == old(callbacks)
        invariant calls == old(calls) + CallsFor(callbacks[..i], report)
      {
        calls := calls + [Call(callbacks[i], report)];
        assert callbacks[..i + 1][..i] == callbacks[..i];
      }
      assert callbacks[..|callbacks|] == callbacks;
    }
  }

  /** The calls one Error makes. */
  function CallsFor<R>(callbacks: seq<CallbackId>, report: R): seq<Call<R>> {
    if |callbacks| == 0 then []
    else CallsFor(callbacks[..|callbacks| - 1], report) + [Call(callbacks[|callbacks| - 1], report)]
  }

  /** The calls several Errors make, one after the other. */
  function Broadcast<R>(callbacks: seq<CallbackId>, reports: seq<R>): seq<Call<R>> {
    if |reports| == 0 then []
    else Broadcast(callbacks, reports[..|reports| - 1]) + CallsFor(callbacks, reports[|reports| - 1])
  }

  /** `n` copies of `x`. */
  function Repeat<T>(x: T, n: nat): (r: seq<T>)
    ensures |r| == n
  {
    if n == 0 then [] else Repeat(x, n - 1) + [x]
  }

  /** Each Error reaches every callback once, in registration order, with its report. */
  lemma {:induction false} CallsForOrder<R>(callbacks: seq<CallbackId>, report: R)
    ensures |CallsFor(callbacks, report)| == |callbacks|
    ensures forall i :: 0 <= i < |callbacks| ==> CallsFor(callbacks, report)[i] == Call(callbacks[i], report)
    decreases |callbacks|
  {
    if |callbacks| > 0 {
      var front := callbacks[..|callbacks| - 1];
      CallsForOrder(front, report);
      forall i | 0 <= i < |callbacks|
        ensures CallsFor(callbacks, report)[i] == Call(callbacks[i], report)
      {
        if i < |front| {
          assert callbacks[i] == front[i];
        }
      }
    }
  }

  /** Without callbacks, reporting calls nothing. */
  lemma {:induction false} BroadcastWithoutCallbacks<R>(reports: seq<R>)
    ensures Broadcast([], reports) == []
    decreases |reports|
  {
    if |reports| > 0 {
      BroadcastWithoutCallbacks(reports[..|reports| - 1]);
    }
  }

  /** One more Error after several. */
  lemma BroadcastSnoc<R>(callbacks: seq<CallbackId>, reports: seq<R>, report: R)
    ensures Broadcast(callbacks, reports + [report]) == Broadcast(callbacks, reports) + CallsFor(callbacks, report)
  {
    assert (reports + [report])[..|reports|] == reports;
  }

  /** Two Errors in a row. */
  lemma BroadcastTwo<R>(callbacks: seq<CallbackId>, a: R, b: R)
    ensures Broadcast(callbacks, [a, b]) == CallsFor(callbacks, a) + CallsFor(callbacks, b)
  {
    assert [a, b][..1] == [a];
    assert [a][..0] == [];
    assert Broadcast(callbacks, [a]) == Broadcast(callbacks, []) + CallsFor(callbacks, a);
    assert Broadcast(callbacks, [a, b]) == Broadcast(callbacks, [a]) + CallsFor(callbacks, b);
  }

  /** Reporting in two batches calls what reporting all at once does. */
  lemma {:induction false} BroadcastAppend<R>(callbacks: seq<CallbackId>, a: seq<R>, b: seq<R>)
    ensures Broadcast(callbacks, a + b) == Broadcast(callbacks, a) + Broadcast(callbacks, b)
    decreases |b|
  {
    if |b| == 0 {
      assert a + b == a;
    } else {
      var front := b[..|b| - 1];
      assert (a + b)[..|a + b| - 1] == a + front;
      assert (a + b)[|a + b| - 1] == b[|b| - 1];
      assert Broadcast(callbacks, a + b) == Broadcast(callbacks, a + front) + CallsFor(callbacks, b[|b| - 1]);
      assert Broadcast(callbacks, b) == Broadcast(callbacks, front) + CallsFor(callbacks, b[|b| - 1]);
      BroadcastAppend(callbacks, a, front);
    }
  }

  /** The calls made so far, once the reports `b` follow the reports `a`. */
  lemma BroadcastExtend<R>(callbacks: seq<CallbackId>, calls: seq<Call<R>>, a: seq<R>, b: seq<R>, ab: seq<R>,
                           before: seq<Call<R>>, after: seq<Call<R>>)
    requires ab == a + b
    requires before == calls + Broadcast(callbacks, a)
    requires after == before + Broadcast(callbacks, b)
    ensures after == calls + Broadcast(callbacks, ab)
  {
    BroadcastAppend(callbacks, a, b);
    SeqAssoc(calls, Broadcast(callbacks, a), Broadcast(callbacks, b));
  }

  // ---------------------------------------------------------------------------------------
  // Object nodes: no two properties with one name

  /** How many properties are called `n`. */
  function Count<P>(props: seq<P>, nameOf: P -> string, n: string): nat {
    if |props| == 0 then 0
    else Count(props[..|props| - 1], nameOf, n) + (if nameOf(props[|props| - 1]) == n then 1 else 0)
  }

  predicate DistinctNames<P>(props: seq<P>, nameOf: P -> string) {
    forall i, j :: 0 <= i < j < |props| ==> nameOf(props[i]) != nameOf(props[j])
  }

  /** ObjectLibConfigNodeImpl.addChild on the properties: the child is appended unless a
      property with its name is there. */
  function AddNamed<P>(props: seq<P>, nameOf: P -> string, child: P): seq<P> {
    if Count(props, nameOf, nameOf(child)) == 0 then props + [child] else props
  }

  /** addChildren: addChild for each child in order. */
  function AddAllNamed<P>(props: seq<P>, nameOf: P -> string, children: seq<P>): seq<P> {
    if |children| == 0 then props
    else AddNamed(AddAllNamed(props, nameOf, children[..|children| - 1]), nameOf, children[|children| - 1])
  }

  /** No property is called `n` exactly when the count is zero. */
  lemma {:induction false} CountZero<P>(props: seq<P>, nameOf: P -> string, n: string)
    ensures Count(props, nameOf, n) == 0 <==> forall i :: 0 <= i < |props| ==> nameOf(props[i]) != n
    decreases |props|
  {
    if |props| > 0 {
      var front := props[..|props| - 1];
      CountZero(front, nameOf, n);
      assert forall i :: 0 <= i < |front| ==> props[i] == front[i];
    }
  }

  /** Among distinct names, a name occurs at most once. */
  lemma {:induction false} DistinctCountAtMostOne<P>(props: seq<P>, nameOf: P -> string, n: string)
    requires DistinctNames(props, nameOf)
    ensures Count(props, nameOf, n) <= 1
    decreases |props|
  {
    if |props| > 0 {
      var front := props[..|props| - 1];
      assert DistinctNames(front, nameOf);
      DistinctCountAtMostOne(front, nameOf, n);
      if nameOf(props[|props| - 1]) == n {
        CountZero(front, nameOf, n);
      }
    }
  }

  /** addChild keeps the names distinct. */
  lemma AddNamedKeepsDistinct<P>(props: seq<P>, nameOf: P -> string, child: P)
    requires DistinctNames(props, nameOf)
    ensures DistinctNames(AddNamed(props, nameOf, child), nameOf)
  {
    CountZero(props, nameOf, nameOf(child));
  }

  /** addChildren keeps the names distinct, only appends, appends only children, and afterwards
      every child's name is there exactly once. */
  lemma {:induction false} AddAllNamedSpec<P>(props: seq<P>, nameOf: P -> string, children: seq<P>)
    requires DistinctNames(props, nameOf)
    ensures var r := AddAllNamed(props, nameOf, children);
      DistinctNames(r, nameOf) && props <= r &&
      (forall k :: |props| <= k < |r| ==> r[k] in children) &&
      (forall c :: c in children ==> Count(r, nameOf, nameOf(c)) == 1)
    decreases |children|
  {
    if |children| > 0 {
      var front := children[..|children| - 1];
      var last := children[|children| - 1];
      AddAllNamedSpec(props, nameOf, front);
      var mid := AddAllNamed(props, nameOf, front);
      AddNamedKeepsDistinct(mid, nameOf, last);
      var r := AddNamed(mid, nameOf, last);
      forall c | c in children
        ensures Count(r, nameOf, nameOf(c)) == 1
      {
        DistinctCountAtMostOne(r, nameOf, nameOf(c));
        if c in front {
          CountAtLeast(mid, r, nameOf, nameOf(c));
        } else {
          assert c == last;
          if Count(mid, nameOf, nameOf(c)) == 0 {
            assert r == mid + [c];
            assert r[..|r| - 1] == mid;
          } else {
            assert r == mid;
          }
        }
      }
    }
  }

  /** Appending never lowers a count. */
  lemma {:induction false} CountAtLeast<P>(a: seq<P>, b: seq<P>, nameOf: P -> string, n: string)
    requires a <= b
    ensures Count(a, nameOf, n) <= Count(b, nameOf, n)
    decreases |b|
  {
    if |a| < |b| {
      var front := b[..|b| - 1];
      assert a <= front;
      CountAtLeast(a, front, nameOf, n);
    } else {
      assert a == b;
    }
  }

  // ---------------------------------------------------------------------------------------
  // Array nodes: one element type

  /** The type a new element must have: the first element's, or its own in an empty array. */
  function ExpectedType(children: seq<Scalar>, child: Scalar): ScalarType {
    if |children| > 0 then children[0].kind else child.kind
  }

  /** ArrayLibConfigNodeImpl.addChild on the elements. */
  function AddScalar(children: seq<Scalar>, child: Scalar): seq<Scalar> {
    if ExpectedType(children, child) == child.kind then children + [child] else children
  }

  function AddScalars(children: seq<Scalar>, cs: seq<Scalar>): seq<Scalar> {
    if |cs| == 0 then children
    else AddScalar(AddScalars(children, cs[..|cs| - 1]), cs[|cs| - 1])
  }

  predicate SameType(children: seq<Scalar>) {
    forall i :: 0 <= i < |children| ==> children[i].kind == children[0].kind
  }

  /** The elements of `cs` of type `t`, in order. */
  function OfType(cs: seq<Scalar>, t: ScalarType): seq<Scalar> {
    if |cs| == 0 then []
    else OfType(cs[..|cs| - 1], t) + (if cs[|cs| - 1].kind == t then [cs[|cs| - 1]] else [])
  }

  /** An array accepts a child exactly when it is empty or the child has the first element's
      type; accepting keeps all elements of one type. */
  lemma AddScalarSpec(children: seq<Scalar>, child: Scalar)
    requires SameType(children)
    ensures AddScalar(children, child) == children + [child] <==> |children| == 0 || child.kind == children[0].kind
    ensures AddScalar(children, child) == children <==> |children| > 0 && child.kind != children[0].kind
    ensures SameType(AddScalar(children, child))
  {
  }

  lemma {:induction false} OfTypeSameType(cs: seq<Scalar>, t: ScalarType)
    ensures forall i :: 0 <= i < |OfType(cs, t)| ==> OfType(cs, t)[i].kind == t
    decreases |cs|
  {
    if |cs| > 0 {
      OfTypeSameType(cs[..|cs| - 1], t);
    }
  }

  /** addChildren on a non-empty array keeps exactly the children of its first element's type. */
  lemma {:induction false} AddScalarsKeepsFirstType(children: seq<Scalar>, cs: seq<Scalar>)
    requires |children| > 0 && SameType(children)
    ensures AddScalars(children, cs) == children + OfType(cs, children[0].kind)
    decreases |cs|
  {
    if |cs| > 0 {
      var front := cs[..|cs| - 1];
      AddScalarsKeepsFirstType(children, front);
      var mid := AddScalars(children, front);
      assert mid[0] == children[0];
      var last := cs[|cs| - 1];
      if last.kind == children[0].kind {
        assert AddScalar(mid, last) == mid + [last];
      }
    }
  }

  /** addChildren on an empty array keeps exactly the children of the first child's type. */
  lemma {:induction false} AddScalarsFromEmpty(cs: seq<Scalar>)
    requires |cs| > 0
    ensures AddScalars([], cs) == OfType(cs, cs[0].kind)
    decreases |cs|
  {
    var t := cs[0].kind;
    var last := cs[|cs| - 1];
    if |cs| == 1 {
      assert AddScalars([], cs[..0]) == [];
      assert OfType(cs[..0], t) == [];
    } else {
      var front := cs[..|cs| - 1];
      AddScalarsFromEmpty(front);
      OfTypeStartsWith(front);
      OfTypeSameType(front, t);
      var mid := AddScalars([], front);
      assert ExpectedType(mid, last) == t;
    }
  }

  /** The elements of `cs` of the first one's type start with that first one. */
  lemma {:induction false} OfTypeStartsWith(cs: seq<Scalar>)
    requires |cs| > 0
    ensures |OfType(cs, cs[0].kind)| > 0 && OfType(cs, cs[0].kind)[0] == cs[0]
    decreases |cs|
  {
    if |cs| == 1 {
      assert OfType(cs[..0], cs[0].kind) == [];
    } else {
      var front := cs[..|cs| - 1];
      OfTypeStartsWith(front);
    }
  }
}
