/**
 * The workflow details panel of the AI workflow builder: a node's library
 * entry, the workflow's total credit cost, and the order in which the nodes
 * are listed as the flow path.
 *
 * Nodes are the JSON values the AI workflow parser produces; a node's type
 * is `node.data.type` and its position `node.position`.
 */
module WorkflowDetails {
  import opened Common
  import opened Json
  import opened Registry
  import opened ComponentPicker
  import FlowOrder
  import WorkflowAi

  /** `node.data.type`. */
  function NodeType(node: Value): Value {
    Get(Get(node, "data"), "type")
  }

  /** Whether a library entry is the one of this type: `comp.type === taskType`. */
  predicate OfType(taskType: Value, c: Component) {
    StrictEq(JStr(TypeName(c.taskType)), taskType)
  }

  /** `components.find(comp => comp.type === taskType)`. */
  function FindOfType(components: seq<Component>, taskType: Value): (r: Option<nat>)
    ensures r.Some? ==> r.value < |components| && OfType(taskType, components[r.value])
    ensures r.None? ==> forall i :: 0 <= i < |components| ==> !OfType(taskType, components[i])
  {
    if components == [] then None
    else if OfType(taskType, components[0]) then Some(0)
    else
      var rest := FindOfType(components[1..], taskType);
      assert forall i :: 1 <= i < |components| ==> components[i] == components[1..][i - 1];
      if rest.Some? then Some(rest.value + 1) else None
  }

  /** `getComponentInfo`: the library entry of that type, if any. */
  function ComponentInfo(taskType: Value): Option<Component> {
    var lib := Library();
    var i := FindOfType(lib, taskType);
    if i.Some? then Some(lib[i.value]) else None
  }

  /**
   * A type that names a task finds that task's entry, and anything else,
   * a string that names no task included, finds nothing.
   */
  lemma ComponentInfoSpec(taskType: Value)
    ensures taskType.JStr? && ParseType(taskType.s).Some? ==> ComponentInfo(taskType) == Some(Entry(ParseType(taskType.s).value))
    ensures !(taskType.JStr? && ParseType(taskType.s).Some?) ==> ComponentInfo(taskType) == None
  {
    if taskType.JStr? && ParseType(taskType.s).Some? {
      var t := ParseType(taskType.s).value;
      assert taskType == JStr(TypeName(t));
      ComponentInfoKnown(t);
    } else {
      ComponentInfoUnknown(taskType);
    }
  }

  /** A task type's name finds that type's library entry. */
  lemma ComponentInfoKnown(t: TaskType)
    ensures ComponentInfo(JStr(TypeName(t))) == Some(Entry(t))
  {
    var lib := Library();
    var v := JStr(TypeName(t));
    TypeAtIndex(t);
    assert OfType(v, lib[LibraryIndex(t)]);
    var i := FindOfType(lib, v).value;
    assert TypeName(lib[i].taskType) == TypeName(t);
    NamesInjective();
    assert lib[i] == Entry(t);
  }

  /** Anything that does not name a task type finds no entry. */
  lemma ComponentInfoUnknown(v: Value)
    requires !(v.JStr? && ParseType(v.s).Some?)
    ensures ComponentInfo(v) == None
  {
    var lib := Library();
    var i := FindOfType(lib, v);
    if i.Some? {
      var u := lib[i.value].taskType;
      OfTypeNames(v, lib[i.value]);
      ParseTypeName(u);
      assert false;
    }
  }

  /** A component matches only the string of its own type's name. */
  lemma OfTypeNames(v: Value, c: Component)
    requires OfType(v, c)
    ensures v == JStr(TypeName(c.taskType))
  {
  }

  /** Whether `node.data.type` can be read: neither the node nor its `data` is `undefined` or `null`. */
  predicate Priceable(node: Value) {
    !Nullish(node) && !Nullish(Get(node, "data"))
  }

  /** `componentInfo?.credits || 0` for the node's `node.data.type`, or the TypeError reading it throws. */
  function NodeCredits(node: Value): (r: Result<nat>)
    ensures r.Err? <==> !Priceable(node)
    ensures r.Ok? ==> r.value <= 5
  {
    if !Priceable(node) then Err(TypeErrorMessage)
    else
      ComponentInfoSpec(NodeType(node));
      match ComponentInfo(NodeType(node))
      case Some(c) => Ok(c.credits)
      case None => Ok(0)
  }

  /** `nodes.reduce((sum, node) => sum + credits(node), 0)`: the first node whose type cannot be read ends it. */
  function CreditsSum(nodes: seq<Value>): Result<nat> {
    if nodes == [] then Ok(0)
    else AddCredits(CreditsSum(nodes[..|nodes| - 1]), NodeCredits(nodes[|nodes| - 1]))
  }

  /** One step of the reduce: an error so far stays, else the node's own error, else the sum. */
  function AddCredits(sum: Result<nat>, c: Result<nat>): (r: Result<nat>)
    ensures r.Ok? <==> sum.Ok? && c.Ok?
    ensures r.Ok? ==> r.value == sum.value + c.value
  {
    if sum.Err? then sum
    else if c.Err? then c
    else Ok(sum.value + c.value)
  }

  /** Whether every node's type can be read. */
  predicate AllPriceable(nodes: seq<Value>) {
    forall i :: 0 <= i < |nodes| ==> Priceable(nodes[i])
  }

  /** `totalCredits`, or the TypeError of the first node without `data`. */
  function TotalCredits(nodes: seq<Value>): (r: Result<nat>)
    ensures r.Err? <==> !AllPriceable(nodes)
    ensures r.Ok? ==> r.value <= 5 * |nodes|
  {
    CreditsBound(nodes);
    CreditsSum(nodes)
  }

  /** The sum fails exactly at a node without `data`, and a sum of costs of at most 5 each is at most five times the count. */
  lemma {:induction false} CreditsBound(nodes: seq<Value>)
    ensures CreditsSum(nodes).Err? <==> !AllPriceable(nodes)
    ensures CreditsSum(nodes).Ok? ==> CreditsSum(nodes).value <= 5 * |nodes|
  {
    if nodes != [] {
      var init := nodes[..|nodes| - 1];
      var last := nodes[|nodes| - 1];
      CreditsBound(init);
      AllPriceableSnoc(init, last);
      assert nodes == init + [last];
    }
  }

  lemma AllPriceableSnoc(init: seq<Value>, last: Value)
    ensures AllPriceable(init + [last]) <==> AllPriceable(init) && Priceable(last)
  {
    var nodes := init + [last];
    assert forall i :: 0 <= i < |init| ==> nodes[i] == init[i];
    assert nodes[|init|] == last;
  }

  /**
   * Reading a node's type throws exactly when the node or its `data` is
   * missing; otherwise the node is charged its library price, and a node
   * of no known type is free.
   */
  lemma NodeCreditsSpec(node: Value)
    ensures NodeCredits(node).Err? <==> !Priceable(node)
    ensures Priceable(node) ==> var v := NodeType(node);
      NodeCredits(node) == Ok(if v.JStr? && ParseType(v.s).Some? then CreditsOf(ParseType(v.s).value) else 0)
  {
    ComponentInfoSpec(NodeType(node));
  }

  /** The total over two lists of nodes is the sum of their totals, and fails when either part does. */
  lemma TotalCreditsConcat(a: seq<Value>, b: seq<Value>)
    ensures TotalCredits(a + b).Ok? <==> TotalCredits(a).Ok? && TotalCredits(b).Ok?
    ensures TotalCredits(a + b).Ok? ==> TotalCredits(a + b).value == TotalCredits(a).value + TotalCredits(b).value
  {
    SumConcat(a, b);
  }

  /** A sum over a concatenation is the sum of the two sums, and fails when either does. */
  lemma {:induction false} SumConcat(a: seq<Value>, b: seq<Value>)
    ensures CreditsSum(a + b).Ok? <==> CreditsSum(a).Ok? && CreditsSum(b).Ok?
    ensures CreditsSum(a + b).Ok? ==> CreditsSum(a + b).value == CreditsSum(a).value + CreditsSum(b).value
    decreases |b|
  {
    if b == [] {
      assert a + b == a;
    } else {
      var b', x := b[..|b| - 1], b[|b| - 1];
      assert b == b' + [x];
      assert a + b == (a + b') + [x];
      SumConcat(a, b');
      CreditsSumSnoc(a + b', x);
      CreditsSumSnoc(b', x);
    }
  }

  /** Adding one node at the end adds its cost, or fails where the sum so far or the node fails. */
  lemma CreditsSumSnoc(init: seq<Value>, x: Value)
    ensures CreditsSum(init + [x]) == AddCredits(CreditsSum(init), NodeCredits(x))
  {
    var nodes := init + [x];
    assert nodes != [] && nodes[..|nodes| - 1] == init && nodes[|nodes| - 1] == x;
  }



  /**
   * `getFlowPath`: a sorted copy of the nodes, by `position.y` and then
   * `position.x`; with two or more nodes the comparator reads every node's
   * position and throws on a node or position that is missing.
   */
  function FlowPath(nodes: seq<Value>): (r: Result<seq<Value>>)
    ensures r.Err? <==> !WorkflowAi.Sortable(nodes)
  {
    if !WorkflowAi.Sortable(nodes) then Err(TypeErrorMessage)
    else Ok(FlowOrder.StableSort(nodes, WorkflowAi.SortKey))
  }

  /**
   * The flow path fails exactly when two or more nodes are given and one of
   * them or its position is missing; otherwise it lists every node once,
   * ordered by (y, x), with nodes at the same position in their original
   * order.
   */
  lemma FlowPathSpec(nodes: seq<Value>)
    ensures FlowPath(nodes).Err? <==> |nodes| >= 2 && exists i :: 0 <= i < |nodes| && (Nullish(nodes[i]) || Nullish(Get(nodes[i], "position")))
    ensures FlowPath(nodes).Ok? ==>
      var p := FlowPath(nodes).value;
      && multiset(p) == multiset(nodes)
      && |p| == |nodes|
      && exists t :: FlowOrder.StableArrangement(nodes, t, WorkflowAi.SortKey) && p == FlowOrder.Untag(t)
  {
    if WorkflowAi.Sortable(nodes) {
      FlowOrder.StableSortSpec(nodes, WorkflowAi.SortKey);
      assert |multiset(FlowPath(nodes).value)| == |multiset(nodes)|;
    }
  }
}
