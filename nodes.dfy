/** The tree node containers of the TypeScript revision. Every node owns its own list of error
    callbacks (BaseLibConfigNodeImpl.errorCallbacks); the callbacks given to a constructor are
    never registered, so nothing a constructor rejects reaches a callback. */
module Nodes {
  import opened NodeBase

  /** LibConfigPropertyImpl: a name and its value. */
  datatype Property = Property(name: string, value: NodeInfo)

  function PropertyName(p: Property): string {
    p.name
  }

  /** What validate reports when `child` is offered to an object holding `props`: one message
      per property of the same name. */
  function DuplicateReports(props: seq<Property>, child: Property): seq<string> {
    Repeat(DuplicateMessage(child.name), Count(props, PropertyName, child.name))
  }

  /** One more property looked at, for the loop in validate. */
  lemma DuplicateStep(props: seq<Property>, child: Property, i: int)
    requires 0 <= i < |props|
    ensures Count(props[..i + 1], PropertyName, child.name) ==
            Count(props[..i], PropertyName, child.name) + (if props[i].name == child.name then 1 else 0)
    ensures DuplicateReports(props[..i + 1], child) ==
            DuplicateReports(props[..i], child) + (if props[i].name == child.name then [DuplicateMessage(child.name)] else [])
  {
    assert props[..i + 1][..i] == props[..i];
  }

  /** What addChildren reports, child by child. */
  function AddAllReports(props: seq<Property>, children: seq<Property>): seq<string> {
    if |children| == 0 then []
    else
      var front := children[..|children| - 1];
      AddAllReports(props, front) +
      DuplicateReports(AddAllNamed(props, PropertyName, front), children[|children| - 1])
  }

  /** Adding one more property, for the loop in addChildren. */
  lemma AddAllStep(props: seq<Property>, children: seq<Property>, i: int)
    requires 0 <= i < |children|
    ensures AddAllNamed(props, PropertyName, children[..i + 1]) ==
            AddNamed(AddAllNamed(props, PropertyName, children[..i]), PropertyName, children[i])
    ensures AddAllReports(props, children[..i + 1]) ==
            AddAllReports(props, children[..i]) +
            DuplicateReports(AddAllNamed(props, PropertyName, children[..i]), children[i])
  {
    assert children[..i + 1][..i] == children[..i];
  }

  /** Where the calls made stand after one more property is offered by addChildren. */
  lemma AddAllCalls(props: seq<Property>, children: seq<Property>, i: int, callbacks: seq<CallbackId>,
                    calls: seq<Call<string>>, before: seq<Call<string>>, after: seq<Call<string>>)
    requires 0 <= i < |children|
    requires before == calls + Broadcast(callbacks, AddAllReports(props, children[..i]))
    requires after == before + Broadcast(callbacks, DuplicateReports(AddAllNamed(props, PropertyName, children[..i]), children[i]))
    ensures AddAllNamed(props, PropertyName, children[..i + 1]) ==
            AddNamed(AddAllNamed(props, PropertyName, children[..i]), PropertyName, children[i])
    ensures after == calls + Broadcast(callbacks, AddAllReports(props, children[..i + 1]))
  {
    AddAllStep(props, children, i);
    BroadcastExtend(callbacks, calls, AddAllReports(props, children[..i]),
                    DuplicateReports(AddAllNamed(props, PropertyName, children[..i]), children[i]),
                    AddAllReports(props, children[..i + 1]), before, after);
  }

  /** An object reports a rejected property once: its names are distinct. */
  lemma DuplicateReportedOnce(props: seq<Property>, child: Property)
    requires DistinctNames(props, PropertyName)
    ensures DuplicateReports(props, child) ==
            if Count(props, PropertyName, child.name) == 0 then [] else [DuplicateMessage(child.name)]
  {
    DistinctCountAtMostOne(props, PropertyName, child.name);
  }

  /** What an array reports when it rejects `child`: the type mismatch, then the failed add. */
  function ArrayReports(children: seq<Scalar>, child: Scalar): seq<string> {
    var t := ExpectedType(children, child);
    if t == child.kind then [] else [MismatchMessage(t), AddFailedMessage]
  }

  function ArrayAddAllReports(children: seq<Scalar>, cs: seq<Scalar>): seq<string> {
    if |cs| == 0 then []
    else
      var front := cs[..|cs| - 1];
      ArrayAddAllReports(children, front) + ArrayReports(AddScalars(children, front), cs[|cs| - 1])
  }

  /** Adding one more element, for the loop in addChildren. */
  lemma ArrayAddAllStep(children: seq<Scalar>, cs: seq<Scalar>, i: int)
    requires 0 <= i < |cs|
    ensures AddScalars(children, cs[..i + 1]) == AddScalar(AddScalars(children, cs[..i]), cs[i])
    ensures ArrayAddAllReports(children, cs[..i + 1]) ==
            ArrayAddAllReports(children, cs[..i]) + ArrayReports(AddScalars(children, cs[..i]), cs[i])
  {
    assert cs[..i + 1][..i] == cs[..i];
  }

  /** Where the calls made stand after one more element is offered by addChildren. */
  lemma ArrayAddAllCalls(children: seq<Scalar>, cs: seq<Scalar>, i: int, callbacks: seq<CallbackId>,
                         calls: seq<Call<string>>, before: seq<Call<string>>, after: seq<Call<string>>)
    requires 0 <= i < |cs|
    requires before == calls + Broadcast(callbacks, ArrayAddAllReports(children, cs[..i]))
    requires after == before + Broadcast(callbacks, ArrayReports(AddScalars(children, cs[..i]), cs[i]))
    ensures AddScalars(children, cs[..i + 1]) == AddScalar(AddScalars(children, cs[..i]), cs[i])
    ensures after == calls + Broadcast(callbacks, ArrayAddAllReports(children, cs[..i + 1]))
  {
    ArrayAddAllStep(children, cs, i);
    BroadcastExtend(callbacks, calls, ArrayAddAllReports(children, cs[..i]), ArrayReports(AddScalars(children, cs[..i]), cs[i]),
                    ArrayAddAllReports(children, cs[..i + 1]), before, after);
  }

  /** ObjectLibConfigNodeImpl: properties with pairwise distinct names. */
  class ObjectNode {
    const offset: int
    const length: int
    const errors: ErrorCallbacks<string>
    var properties: seq<Property>

    predicate Valid()
      reads this
    {
      DistinctNames(properties, PropertyName)
    }

    constructor (offset: int, length: int, properties: seq<Property>, callbacks: seq<CallbackId>)
      ensures this.offset == offset && this.length == length
      ensures fresh(errors) && errors.callbacks == [] && errors.calls == []
      ensures Valid() && this.properties == AddAllNamed([], PropertyName, properties)
    {
      this.offset := offset;
      this.length := length;
      errors := new ErrorCallbacks();
      this.properties := [];
      new;
      AddChildren(properties);
      BroadcastWithoutCallbacks(AddAllReports([], properties));
    }

    method AddErrorCallback(func: CallbackId)
      modifies errors
      ensures errors.callbacks == old(errors.callbacks) + [func] && errors.calls == old(errors.calls)
    {
      errors.AddErrorCallback(func);
    }

    /** addChildren: addChild for each property in order. */
    method AddChildren(children: seq<Property>)
      requires Valid()
      modifies this, errors
      ensures Valid() && properties == AddAllNamed(old(properties), PropertyName, children)
      ensures errors.callbacks == old(errors.callbacks)
      ensures errors.calls == old(errors.calls) + Broadcast(errors.callbacks, AddAllReports(old(properties), children))
    {
      for i := 0 to |children|
        invariant Valid() && properties == AddAllNamed(old(properties), PropertyName, children[..i])
        invariant errors.callbacks == old(errors.callbacks)
        invariant errors.calls == old(errors.calls) + Broadcast(errors.callbacks, AddAllReports(old(properties), children[..i]))
      {
        AddNextChild(old(properties), old(errors.calls), children, i);
      }
      assert children[..|children|] == children;
    }

    /** One pass of the loop in addChildren, started on `props` with `calls` made so far. */
    method AddNextChild(ghost props: seq<Property>, ghost calls: seq<Call<string>>, children: seq<Property>, i: int)
      requires 0 <= i < |children|
      requires Valid() && properties == AddAllNamed(props, PropertyName, children[..i])
      requires errors.calls == calls + Broadcast(errors.callbacks, AddAllReports(props, children[..i]))
      modifies this, errors
      ensures Valid() && properties == AddAllNamed(props, PropertyName, children[..i + 1])
      ensures errors.callbacks == old(errors.callbacks)
      ensures errors.calls == calls + Broadcast(errors.callbacks, AddAllReports(props, children[..i + 1]))
    {
      ghost var before := errors.calls;
      AddChild(children[i]);
      AddAllCalls(props, children, i, errors.callbacks, calls, before, errors.calls);
    }

    /** addChild: the property is appended unless one of the same name is there; each property
        of the same name is reported. */
    method AddChild(child: Property)
      requires Valid()
      modifies this, errors
      ensures Valid() && properties == AddNamed(old(properties), PropertyName, child)
      ensures errors.callbacks == old(errors.callbacks)
      ensures errors.calls == old(errors.calls) + Broadcast(errors.callbacks, DuplicateReports(old(properties), child))
    {
      var valid := Validate(child);
      if !valid {
        return;
      }
      AddNamedKeepsDistinct(properties, PropertyName, child);
      properties := properties + [child];
    }

    /** validate: true when no property has the child's name; reports each one that has. */
    method Validate(child: Property) returns (valid: bool)
      modifies errors
      ensures valid == (Count(properties, PropertyName, child.name) == 0)
      ensures errors.callbacks == old(errors.callbacks)
      ensures errors.calls == old(errors.calls) + Broadcast(errors.callbacks, DuplicateReports(properties, child))
    {
      var invalid := false;
      for i := 0 to |properties|
        invariant errors.callbacks == old(errors.callbacks)
        invariant invalid == (Count(properties[..i], PropertyName, child.name) > 0)
        invariant errors.calls == old(errors.calls) + Broadcast(errors.callbacks, DuplicateReports(properties[..i], child))
      {
        DuplicateStep(properties, child, i);
        if properties[i].name == child.name {
          BroadcastSnoc(errors.callbacks, DuplicateReports(properties[..i], child), DuplicateMessage(child.name));
          errors.Error(DuplicateMessage(properties[i].name));
          invalid := true;
        }
      }
      assert properties[..|properties|] == properties;
      valid := !invalid;
    }
  }

  /** ListLibConfigNodeImpl: any node is accepted. */
  class ListNode {
    const offset: int
    const length: int
    const errors: ErrorCallbacks<string>
    var children: seq<NodeInfo>

    constructor (offset: int, length: int, children: seq<NodeInfo>, callbacks: seq<CallbackId>)
      ensures this.offset == offset && this.length == length
      ensures fresh(errors) && errors.callbacks == [] && errors.calls == []
      ensures this.children == children
    {
      this.offset := offset;
      this.length := length;
      errors := new ErrorCallbacks();
      this.children := [];
      new;
      AddChildren(children);
    }

    method AddErrorCallback(func: CallbackId)
      modifies errors
      ensures errors.callbacks == old(errors.callbacks) + [func] && errors.calls == old(errors.calls)
    {
      errors.AddErrorCallback(func);
    }

    method AddChildren(cs: seq<NodeInfo>)
      modifies this
      ensures children == old(children) + cs
    {
      for i := 0 to |cs|
        invariant children == old(children) + cs[..i]
      {
        AddChild(cs[i]);
        assert cs[..i + 1] == cs[..i] + [cs[i]];
      }
      assert cs[..|cs|] == cs;
    }

    /** addChild: validate never fails, so the child is always appended. */
    method AddChild(child: NodeInfo)
      modifies this
      ensures children == old(children) + [child]
    {
      var valid := Validate(child);
      if !valid {
        return;
      }
      children := children + [child];
    }

    method Validate(child: NodeInfo) returns (valid: bool)
      ensures valid
    {
      var invalid := false;
      valid := !invalid;
    }
  }

  /** ArrayLibConfigNodeImpl: scalars all of the first one's type. */
  class ArrayNode {
    const offset: int
    const length: int
    const errors: ErrorCallbacks<string>
    var children: seq<Scalar>

    predicate Valid()
      reads this
    {
      SameType(children)
    }

    constructor (offset: int, length: int, children: seq<Scalar>, callbacks: seq<CallbackId>)
      ensures this.offset == offset && this.length == length
      ensures fresh(errors) && errors.callbacks == [] && errors.calls == []
      ensures Valid() && this.children == AddScalars([], children)
    {
      this.offset := offset;
      this.length := length;
      errors := new ErrorCallbacks();
      this.children := [];
      new;
      AddChildren(children);
      BroadcastWithoutCallbacks(ArrayAddAllReports([], children));
    }

    method AddErrorCallback(func: CallbackId)
      modifies errors
      ensures errors.callbacks == old(errors.callbacks) + [func] && errors.calls == old(errors.calls)
    {
      errors.AddErrorCallback(func);
    }

    method AddChildren(cs: seq<Scalar>)
      requires Valid()
      modifies this, errors
      ensures Valid() && children == AddScalars(old(children), cs)
      ensures errors.callbacks == old(errors.callbacks)
      ensures errors.calls == old(errors.calls) + Broadcast(errors.callbacks, ArrayAddAllReports(old(children), cs))
    {
      for i := 0 to |cs|
        invariant Valid() && children == AddScalars(old(children), cs[..i])
        invariant errors.callbacks == old(errors.callbacks)
        invariant errors.calls == old(errors.calls) + Broadcast(errors.callbacks, ArrayAddAllReports(old(children), cs[..i]))
      {
        AddNextChild(old(children), old(errors.calls), cs, i);
      }
      assert cs[..|cs|] == cs;
    }

    /** One pass of the loop in addChildren, started on `elements` with `calls` made so far. */
    method AddNextChild(ghost elements: seq<Scalar>, ghost calls: seq<Call<string>>, cs: seq<Scalar>, i: int)
      requires 0 <= i < |cs|
      requires Valid() && children == AddScalars(elements, cs[..i])
      requires errors.calls == calls + Broadcast(errors.callbacks, ArrayAddAllReports(elements, cs[..i]))
      modifies this, errors
      ensures Valid() && children == AddScalars(elements, cs[..i + 1])
      ensures errors.callbacks == old(errors.callbacks)
      ensures errors.calls == calls + Broadcast(errors.callbacks, ArrayAddAllReports(elements, cs[..i + 1]))
    {
      ghost var before := errors.calls;
      AddChild(cs[i]);
      ArrayAddAllCalls(elements, cs, i, errors.callbacks, calls, before, errors.calls);
    }

    /** addChild: a child of the expected type is appended; any other is reported twice. */
    method AddChild(child: Scalar)
      requires Valid()
      modifies this, errors
      ensures Valid() && children == AddScalar(old(children), child)
      ensures errors.callbacks == old(errors.callbacks)
      ensures errors.calls == old(errors.calls) + Broadcast(errors.callbacks, ArrayReports(old(children), child))
    {
      var valid := Validate(child);
      if !valid {
        errors.Error(AddFailedMessage);
        BroadcastTwo(errors.callbacks, MismatchMessage(ExpectedType(children, child)), AddFailedMessage);
        return;
      }
      AddScalarSpec(children, child);
      children := children + [child];
    }

    /** validate: the child must have the first element's type (any type in an empty array). */
    method Validate(child: Scalar) returns (valid: bool)
      modifies errors
      ensures valid == (ExpectedType(children, child) == child.kind)
      ensures errors.callbacks == old(errors.callbacks)
      ensures errors.calls == old(errors.calls) +
                (if valid then [] else CallsFor(errors.callbacks, MismatchMessage(ExpectedType(children, child))))
    {
      var invalid := false;
      var t := if |children| > 0 then children[0].kind else child.kind;
      if t != child.kind {
        errors.Error(MismatchMessage(t));
        invalid := true;
      }
      valid := !invalid;
    }
  }

  /** The values a scalar node holds; a number's value is not modelled. */
  datatype ScalarValue = StringValue(s: string) | NumberValue | BooleanValue(b: bool)

  /** StringLibConfigNodeImpl, NumberLibConfigNodeImpl and BooelanLibConfigNodeImpl. */
  class ScalarNode {
    const offset: int
    const length: int
    const value: ScalarValue

    constructor (offset: int, length: int, value: ScalarValue)
      ensures this.offset == offset && this.length == length && this.value == value
    {
      this.offset := offset;
      this.length := length;
      this.value := value;
    }

    function Kind(): ScalarType {
      match value
      case StringValue(_) => ScalarString
      case NumberValue => ScalarNumber
      case BooleanValue(_) => ScalarBoolean
    }

    /** The node as an array sees it. */
    function AsElement(): (r: Scalar)
      ensures r.kind == Kind() && r.offset == offset && r.length == length
    {
      Scalar(Kind(), offset, length)
    }

    /** children: a scalar has none. */
    function Children(): (r: seq<Scalar>)
      ensures |r| == 0
    {
      []
    }
  }
}
