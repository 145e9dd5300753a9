/** The tree node containers of the compiled JavaScript revision. Here the list of error
    callbacks is static: one list (BaseLibConfigNodeImpl.errorCallbacks) is shared by every node,
    so each node is given that one ErrorCallbacks object. Every report carries the offending
    child's offset and length. */
module CompiledNodes {
  import opened NodeBase

  /** The three arguments of BaseLibConfigNodeImpl.Error. */
  datatype Report = Report(info: string, start: int, length: int)

  /** LibConfigPropertyNodeImpl: a node of its own, holding a name and a value. */
  class PropertyNode {
    const offset: int
    const length: int
    const name: string
    const value: NodeInfo

    constructor (offset: int, length: int, name: string, value: NodeInfo)
      ensures this.offset == offset && this.length == length && this.name == name && this.value == value
    {
      this.offset := offset;
      this.length := length;
      this.name := name;
      this.value := value;
    }

    /** addChild: a property takes no children (the source only logs to the console). */
    method AddChild(child: NodeInfo)
      ensures unchanged(this)
    {
    }
  }

  function PropertyNodeName(p: PropertyNode): string {
    p.name
  }

  /** What validate reports when `child` is offered to an object holding `props`: one report
      per property of the same name, each at the child's range. */
  function DuplicateReports(props: seq<PropertyNode>, child: PropertyNode): seq<Report> {
    Repeat(Report(DuplicateMessage(child.name), child.offset, child.length),
           Count(props, PropertyNodeName, child.name))
  }

  /** One more property looked at, for the loop in validate. */
  lemma DuplicateStep(props: seq<PropertyNode>, child: PropertyNode, i: int)
    requires 0 <= i < |props|
    ensures Count(props[..i + 1], PropertyNodeName, child.name) ==
            Count(props[..i], PropertyNodeName, child.name) + (if props[i].name == child.name then 1 else 0)
    ensures DuplicateReports(props[..i + 1], child) ==
            DuplicateReports(props[..i], child) + (if props[i].name == child.name then [Report(DuplicateMessage(child.name), child.offset, child.length)] else [])
  {
    assert props[..i + 1][..i] == props[..i];
  }

  /** What addChildren reports, child by child. */
  function AddAllReports(props: seq<PropertyNode>, children: seq<PropertyNode>): seq<Report> {
    if |children| == 0 then []
    else
      var front := children[..|children| - 1];
      AddAllReports(props, front) +
      DuplicateReports(AddAllNamed(props, PropertyNodeName, front), children[|children| - 1])
  }

  lemma AddAllStep(props: seq<PropertyNode>, children: seq<PropertyNode>, i: int)
    requires 0 <= i < |children|
    ensures AddAllNamed(props, PropertyNodeName, children[..i + 1]) ==
            AddNamed(AddAllNamed(props, PropertyNodeName, children[..i]), PropertyNodeName, children[i])
    ensures AddAllReports(props, children[..i + 1]) ==
            AddAllReports(props, children[..i]) +
            DuplicateReports(AddAllNamed(props, PropertyNodeName, children[..i]), children[i])
  {
    assert children[..i + 1][..i] == children[..i];
  }

  /** Where the calls made stand after one more property is offered by addChildren. */
  lemma AddAllCalls(props: seq<PropertyNode>, children: seq<PropertyNode>, i: int, callbacks: seq<CallbackId>,
                    calls: seq<Call<Report>>, before: seq<Call<Report>>, after: seq<Call<Report>>)
    requires 0 <= i < |children|
    requires before == calls + Broadcast(callbacks, AddAllReports(props, children[..i]))
    requires after == before + Broadcast(callbacks, DuplicateReports(AddAllNamed(props, PropertyNodeName, children[..i]), children[i]))
    ensures AddAllNamed(props, PropertyNodeName, children[..i + 1]) ==
            AddNamed(AddAllNamed(props, PropertyNodeName, children[..i]), PropertyNodeName, children[i])
    ensures after == calls + Broadcast(callbacks, AddAllReports(props, children[..i + 1]))
  {
    AddAllStep(props, children, i);
    BroadcastExtend(callbacks, calls, AddAllReports(props, children[..i]),
                    DuplicateReports(AddAllNamed(props, PropertyNodeName, children[..i]), children[i]),
                    AddAllReports(props, children[..i + 1]), before, after);
  }

  /** An object holding distinct names reports a rejected property exactly once. */
  lemma DuplicateReportedOnce(props: seq<PropertyNode>, child: PropertyNode)
    requires DistinctNames(props, PropertyNodeName)
    ensures DuplicateReports(props, child) ==
            if Count(props, PropertyNodeName, child.name) == 0 then []
            else [Report(DuplicateMessage(child.name), child.offset, child.length)]
  {
    DistinctCountAtMostOne(props, PropertyNodeName, child.name);
  }

  /** What an array reports when it rejects `child`: the type mismatch, then the failed add,
      both at the child's range. */
  function ArrayReports(children: seq<Scalar>, child: Scalar): seq<Report> {
    var t := ExpectedType(children, child);
    if t == child.kind then []
    else [Report(MismatchMessage(t), child.offset, child.length),
          Report(AddFailedMessage, child.offset, child.length)]
  }

  function ArrayAddAllReports(children: seq<Scalar>, cs: seq<Scalar>): seq<Report> {
    if |cs| == 0 then []
    else
      var front := cs[..|cs| - 1];
      ArrayAddAllReports(children, front) + ArrayReports(AddScalars(children, front), cs[|cs| - 1])
  }

  lemma ArrayAddAllStep(children: seq<Scalar>, cs: seq<Scalar>, i: int)
    requires 0 <= i < |cs|
    ensures AddScalars(children, cs[..i + 1]) == AddScalar(AddScalars(children, cs[..i]), cs[i])
    ensures ArrayAddAllReports(children, cs[..i + 1]) ==
            ArrayAddAllReports(children, cs[..i]) + ArrayReports(AddScalars(children, cs[..i]), cs[i])
  {
    assert cs[..i + 1][..i] == cs[..i];
  }

  /** Where the calls made stand after one more element is offered by addChildren. */
  lemma ArrayAddAllCalls(children: seq<Scalar>, cs: seq<Scalar>, i: int, callbacks: seq<CallbackId>,
                         calls: seq<Call<Report>>, before: seq<Call<Report>>, after: seq<Call<Report>>)
    requires 0 <= i < |cs|
    requires before == calls + Broadcast(callbacks, ArrayAddAllReports(children, cs[..i]))
    requires after == before + Broadcast(callbacks, ArrayReports(AddScalars(children, cs[..i]), cs[i]))
    ensures AddScalars(children, cs[..i + 1]) == AddScalar(AddScalars(children, cs[..i]), cs[i])
    ensures after == calls + Broadcast(callbacks, ArrayAddAllReports(children, cs[..i + 1]))
  {
    ArrayAddAllStep(children, cs, i);
    BroadcastExtend(callbacks, calls, ArrayAddAllReports(children, cs[..i]), ArrayReports(AddScalars(children, cs[..i]), cs[i]),
                    ArrayAddAllReports(children, cs[..i + 1]), before, after);
  }

  /** ObjectLibConfigNodeImpl: property nodes with pairwise distinct names. */
  class ObjectNode {
    const offset: int
    const length: int
    const errors: ErrorCallbacks<Report>
    var properties: seq<PropertyNode>

    predicate Valid()
      reads this
    {
      DistinctNames(properties, PropertyNodeName)
    }

    /** The constructor adds the given properties; what it rejects goes to the shared callbacks,
        since the callbacks it is given are never registered. */
    constructor (offset: int, length: int, properties: seq<PropertyNode>, callbacks: seq<CallbackId>,
                 errors: ErrorCallbacks<Report>)
      modifies errors
      ensures this.offset == offset && this.length == length && this.errors == errors
      ensures Valid() && this.properties == AddAllNamed([], PropertyNodeName, properties)
      ensures errors.callbacks == old(errors.callbacks)
      ensures errors.calls == old(errors.calls) + Broadcast(errors.callbacks, AddAllReports([], properties))
    {
      this.offset := offset;
      this.length := length;
      this.errors := errors;
      this.properties := [];
      new;
      AddChildren(properties);
    }

    method AddChildren(children: seq<PropertyNode>)
      requires Valid()
      modifies this, errors
      ensures Valid() && properties == AddAllNamed(old(properties), PropertyNodeName, children)
      ensures errors.callbacks == old(errors.callbacks)
      ensures errors.calls == old(errors.calls) + Broadcast(errors.callbacks, AddAllReports(old(properties), children))
    {
      for i := 0 to |children|
        invariant Valid() && properties == AddAllNamed(old(properties), PropertyNodeName, children[..i])
        invariant errors.callbacks == old(errors.callbacks)
        invariant errors.calls == old(errors.calls) + Broadcast(errors.callbacks, AddAllReports(old(properties), children[..i]))
      {
        AddNextChild(old(properties), old(errors.calls), children, i);
      }
      assert children[..|children|] == children;
    }

    /** One pass of the loop in addChildren, started on `props` with `calls` made so far. */
    method AddNextChild(ghost props: seq<PropertyNode>, ghost calls: seq<Call<Report>>,
                        children: seq<PropertyNode>, i: int)
      requires 0 <= i < |children|
      requires Valid() && properties == AddAllNamed(props, PropertyNodeName, children[..i])
      requires errors.calls == calls + Broadcast(errors.callbacks, AddAllReports(props, children[..i]))
      modifies this, errors
      ensures Valid() && properties == AddAllNamed(props, PropertyNodeName, children[..i + 1])
      ensures errors.callbacks == old(errors.callbacks)
      ensures errors.calls == calls + Broadcast(errors.callbacks, AddAllReports(props, children[..i + 1]))
    {
      ghost var before := errors.calls;
      AddChild(children[i]);
      AddAllCalls(props, children, i, errors.callbacks, calls, before, errors.calls);
    }

    /** addChild: the property is appended unless one of the same name is there. */
    method AddChild(child: PropertyNode)
      requires Valid()
      modifies this, errors
      ensures Valid() && properties == AddNamed(old(properties), PropertyNodeName, child)
      ensures errors.callbacks == old(errors.callbacks)
      ensures errors.calls == old(errors.calls) + Broadcast(errors.callbacks, DuplicateReports(old(properties), child))
    {
      var valid := Validate(child);
      if !valid {
        return;
      }
      AddNamedKeepsDistinct(properties, PropertyNodeName, child);
      properties := properties + [child];
    }

    /** validate: true when no property has the child's name; reports each one that has. */
    method Validate(child: PropertyNode) returns (valid: bool)
      modifies errors
      ensures valid == (Count(properties, PropertyNodeName, child.name) == 0)
      ensures errors.callbacks == old(errors.callbacks)
      ensures errors.calls == old(errors.calls) + Broadcast(errors.callbacks, DuplicateReports(properties, child))
    {
      var props := properties;
      var invalid := false;
      for i := 0 to |props|
        invariant errors.callbacks == old(errors.callbacks)
        invariant invalid == (Count(props[..i], PropertyNodeName, child.name) > 0)
        invariant errors.calls == old(errors.calls) + Broadcast(errors.callbacks, DuplicateReports(props[..i], child))
      {
        invalid := ValidateStep(props, child, i, old(errors.calls), invalid);
      }
      assert props[..|props|] == props;
      valid := !invalid;
    }

    /** One pass of the loop in validate: the property at `i` is compared with the child. */
    method ValidateStep(props: seq<PropertyNode>, child: PropertyNode, i: int, ghost calls: seq<Call<Report>>,
                        invalid: bool) returns (invalid': bool)
      requires 0 <= i < |props|
      requires invalid == (Count(props[..i], PropertyNodeName, child.name) > 0)
      requires errors.calls == calls + Broadcast(errors.callbacks, DuplicateReports(props[..i], child))
      modifies errors
      ensures errors.callbacks == old(errors.callbacks)
      ensures invalid' == (Count(props[..i + 1], PropertyNodeName, child.name) > 0)
      ensures errors.calls == calls + Broadcast(errors.callbacks, DuplicateReports(props[..i + 1], child))
    {
      DuplicateStep(props, child, i);
      invalid' := invalid;
      if props[i].name == child.name {
        var report := Report(DuplicateMessage(props[i].name), child.offset, child.length);
        BroadcastSnoc(errors.callbacks, DuplicateReports(props[..i], child), report);
        errors.Error(report);
        invalid' := true;
      }
    }
  }

  /** ListLibConfigNodeImpl: any node is accepted. */
  class ListNode {
    const offset: int
    const length: int
    var children: seq<NodeInfo>

    constructor (offset: int, length: int, children: seq<NodeInfo>, callbacks: seq<CallbackId>)
      ensures this.offset == offset && this.length == length && this.children == children
    {
      this.offset := offset;
      this.length := length;
      this.children := [];
      new;
      AddChildren(children);
    }

    method AddChildren(cs: seq<NodeInfo>)
      modifies this
      ensures children == old(children) + cs
    {
      for i := 0 to |cs|
        invariant children == old(children) + cs[..i]
      {
        AddChild(cs[i]);
        assert cs[..i + 1] == cs[..i] + [cs[i]];
      }
      assert cs[..|cs|] == cs;
    }

    /** addChild: validate never fails, so the child is always appended. */
    method AddChild(child: NodeInfo)
      modifies this
      ensures children == old(children) + [child]
    {
      var valid := Validate(child);
      if !valid {
        return;
      }
      children := children + [child];
    }

    method Validate(child: NodeInfo) returns (valid: bool)
      ensures valid
    {
      var invalid := false;
      valid := !invalid;
    }
  }

  /** ArrayLibConfigNodeImpl: scalars all of the first one's type. */
  class ArrayNode {
    const offset: int
    const length: int
    const errors: ErrorCallbacks<Report>
    var children: seq<Scalar>

    predicate Valid()
      reads this
    {
      SameType(children)
    }

    constructor (offset: int, length: int, children: seq<Scalar>, callbacks: seq<CallbackId>,
                 errors: ErrorCallbacks<Report>)
      modifies errors
      ensures this.offset == offset && this.length == length && this.errors == errors
      ensures Valid() && this.children == AddScalars([], children)
      ensures errors.callbacks == old(errors.callbacks)
      ensures errors.calls == old(errors.calls) + Broadcast(errors.callbacks, ArrayAddAllReports([], children))
    {
      this.offset := offset;
      this.length := length;
      this.errors := errors;
      this.children := [];
      new;
      AddChildren(children);
    }

    method AddChildren(cs: seq<Scalar>)
      requires Valid()
      modifies this, errors
      ensures Valid() && children == AddScalars(old(children), cs)
      ensures errors.callbacks == old(errors.callbacks)
      ensures errors.calls == old(errors.calls) + Broadcast(errors.callbacks, ArrayAddAllReports(old(children), cs))
    {
      for i := 0 to |cs|
        invariant Valid() && children == AddScalars(old(children), cs[..i])
        invariant errors.callbacks == old(errors.callbacks)
        invariant errors.calls == old(errors.calls) + Broadcast(errors.callbacks, ArrayAddAllReports(old(children), cs[..i]))
      {
        AddNextChild(old(children), old(errors.calls), cs, i);
      }
      assert cs[..|cs|] == cs;
    }

    /** One pass of the loop in addChildren, started on `elements` with `calls` made so far. */
    method AddNextChild(ghost elements: seq<Scalar>, ghost calls: seq<Call<Report>>, cs: seq<Scalar>, i: int)
      requires 0 <= i < |cs|
      requires Valid() && children == AddScalars(elements, cs[..i])
      requires errors.calls == calls + Broadcast(errors.callbacks, ArrayAddAllReports(elements, cs[..i]))
      modifies this, errors
      ensures Valid() && children == AddScalars(elements, cs[..i + 1])
      ensures errors.callbacks == old(errors.callbacks)
      ensures errors.calls == calls + Broadcast(errors.callbacks, ArrayAddAllReports(elements, cs[..i + 1]))
    {
      ghost var before := errors.calls;
      AddChild(cs[i]);
      ArrayAddAllCalls(elements, cs, i, errors.callbacks, calls, before, errors.calls);
    }

    /** addChild: a child of the expected type is appended; any other is reported twice. */
    method AddChild(child: Scalar)
      requires Valid()
      modifies this, errors
      ensures Valid() && children == AddScalar(old(children), child)
      ensures errors.callbacks == old(errors.callbacks)
      ensures errors.calls == old(errors.calls) + Broadcast(errors.callbacks, ArrayReports(old(children), child))
    {
      var valid := Validate(child);
      if !valid {
        var failed := Report(AddFailedMessage, child.offset, child.length);
        errors.Error(failed);
        BroadcastTwo(errors.callbacks,
                     Report(MismatchMessage(ExpectedType(children, child)), child.offset, child.length), failed);
        return;
      }
      AddScalarSpec(children, child);
      children := children + [child];
    }

    /** validate: the child must have the first element's type (any type in an empty array). */
    method Validate(child: Scalar) returns (valid: bool)
      modifies errors
      ensures valid == (ExpectedType(children, child) == child.kind)
      ensures errors.callbacks == old(errors.callbacks)
      ensures errors.calls == old(errors.calls) +
                (if valid then [] else
                   CallsFor(errors.callbacks, Report(MismatchMessage(ExpectedType(children, child)), child.offset, child.length)))
    {
      var invalid := false;
      var t := if |children| > 0 then children[0].kind else child.kind;
      if t != child.kind {
        errors.Error(Report(MismatchMessage(t), child.offset, child.length));
        invalid := true;
      }
      valid := !invalid;
    }
  }
}
