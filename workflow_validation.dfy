/**
 * `validateWorkflow`: the structural checks run over a workflow before it is
 * shown. It collects messages rather than failing on the first problem; the
 * only way it fails is a TypeError from reading a property of `undefined` or
 * `null`, which the model reports as `Err`.
 */
module WorkflowValidation {
  import opened Common
  import opened Strings
  import opened Json
  import opened Registry

  const NoNodesMessage: string := "Workflow must have at least one node"
  const NoEntryMessage: string := "Workflow must have an entry point task (e.g., AI Research Assistant or Launch Browser)"

  datatype Validation = Validation(isValid: bool, errors: seq<string>)

  /** The problems `validateWorkflow` reports; `index` is the 0-based position in its list. */
  datatype Issue =
    | NoNodes
    | NoEntry
    | MissingId(index: nat)
    | MissingType(index: nat)
    | InvalidType(index: nat, taskType: Value)
    | MissingPosition(index: nat)
    | EdgeMissingId(index: nat)
    | EdgeMissingEnds(index: nat)
    | DanglingSource(index: nat, source: Value)
    | DanglingTarget(index: nat, target: Value)

  /** The 1-based position used in messages. */
  function Ordinal(index: nat): string {
    NatToString(index + 1)
  }

  /** The message text pushed for each problem. */
  function Message(issue: Issue): string {
    match issue
    case NoNodes => NoNodesMessage
    case NoEntry => NoEntryMessage
    case MissingId(i) => "Node " + Ordinal(i) + " is missing an ID"
    case MissingType(i) => "Node " + Ordinal(i) + " is missing task type"
    case InvalidType(i, t) => "Node " + Ordinal(i) + " has invalid task type: " + ToStr(t)
    case MissingPosition(i) => "Node " + Ordinal(i) + " is missing position"
    case EdgeMissingId(i) => "Edge " + Ordinal(i) + " is missing an ID"
    case EdgeMissingEnds(i) => "Edge " + Ordinal(i) + " is missing source or target"
    case DanglingSource(i, v) => "Edge " + Ordinal(i) + " references non-existent source node: " + ToStr(v)
    case DanglingTarget(i, v) => "Edge " + Ordinal(i) + " references non-existent target node: " + ToStr(v)
  }

  function Messages(issues: seq<Issue>): (r: seq<string>)
    ensures |r| == |issues|
  {
    seq(|issues|, i requires 0 <= i < |issues| => Message(issues[i]))
  }

  /** Nodes whose properties can be read: neither the node nor its `data` is `undefined` or `null`. */
  predicate Readable(node: Value) {
    !Nullish(node) && !Nullish(Get(node, "data"))
  }

  /** `task && task.isEntryPoint` for `task = TaskRegistry[node.data.type]`. */
  predicate IsEntryNode(unseen: Unseen, node: Value) {
    var task := TaskByName(unseen, ToStr(Get(Get(node, "data"), "type")));
    task.Some? && task.value.isEntryPoint
  }

  /** `Object.values(TaskType).includes(t)`: a string naming a task type. */
  predicate IsTaskTypeValue(t: Value) {
    t.JStr? && ParseType(t.s).Some?
  }

  /** A node passes its own checks iff it has an id, a known task type and a position. */
  predicate NodeOk(node: Value) {
    Truthy(Get(node, "id")) && IsTaskTypeValue(Get(Get(node, "data"), "type")) && Truthy(Get(node, "position"))
  }

  /** An edge passes its own checks iff it has an id and both endpoints are ids of nodes. */
  predicate EdgeOk(nodes: seq<Value>, edge: Value) {
    Truthy(Get(edge, "id")) && Truthy(Get(edge, "source")) && Truthy(Get(edge, "target"))
    && NodeExists(nodes, Get(edge, "source")) && NodeExists(nodes, Get(edge, "target"))
  }

  /** The problems of one node, in the order the checks run. */
  function NodeIssues(node: Value, index: nat): seq<Issue> {
    var data := Get(node, "data");
    var t := Get(data, "type");
    (if !Truthy(Get(node, "id")) then [MissingId(index)] else [])
    + (if !Truthy(data) || !Truthy(t) then [MissingType(index)] else [])
    + (if Truthy(t) && !IsTaskTypeValue(t) then [InvalidType(index, t)] else [])
    + (if !Truthy(Get(node, "position")) then [MissingPosition(index)] else [])
  }

  /** A node has no problems exactly when it passes its checks. */
  lemma NodeIssuesEmpty(node: Value, index: nat)
    ensures NodeIssues(node, index) == [] <==> NodeOk(node)
  {
    var data := Get(node, "data");
    if !Truthy(data) {
      GetFalsy(data, "type");
    }
  }

  /** `nodes.some(node => node.id === v)`. */
  predicate NodeExists(nodes: seq<Value>, v: Value) {
    exists i :: 0 <= i < |nodes| && StrictEq(Get(nodes[i], "id"), v)
  }

  /** The problems of one edge, in the order the checks run. */
  function EdgeIssues(nodes: seq<Value>, edge: Value, index: nat): seq<Issue> {
    var source := Get(edge, "source");
    var target := Get(edge, "target");
    (if !Truthy(Get(edge, "id")) then [EdgeMissingId(index)] else [])
    + (if !Truthy(source) || !Truthy(target) then [EdgeMissingEnds(index)] else [])
    + (if !NodeExists(nodes, source) then [DanglingSource(index, source)] else [])
    + (if !NodeExists(nodes, target) then [DanglingTarget(index, target)] else [])
  }

  /** An edge has no problems exactly when it passes its checks. */
  lemma EdgeIssuesEmpty(nodes: seq<Value>, edge: Value, index: nat)
    ensures EdgeIssues(nodes, edge, index) == [] <==> EdgeOk(nodes, edge)
  {
    assert "source"[0] != "target"[0];
  }

  /** The problems of `nodes[from..]`, concatenated. */
  function AllNodeIssues(nodes: seq<Value>, from: nat): seq<Issue>
    requires from <= |nodes|
    decreases |nodes| - from
  {
    if from == |nodes| then [] else NodeIssues(nodes[from], from) + AllNodeIssues(nodes, from + 1)
  }

  /** No node problem is collected exactly when every node from `from` on passes its checks. */
  lemma {:induction false} AllNodeIssuesEmpty(nodes: seq<Value>, from: nat)
    requires from <= |nodes|
    ensures AllNodeIssues(nodes, from) == [] <==> forall i :: from <= i < |nodes| ==> NodeOk(nodes[i])
    decreases |nodes| - from
  {
    if from < |nodes| {
      var head := NodeIssues(nodes[from], from);
      var rest := AllNodeIssues(nodes, from + 1);
      NodeIssuesEmpty(nodes[from], from);
      AllNodeIssuesEmpty(nodes, from + 1);
      assert AllNodeIssues(nodes, from) == head + rest;
      assert |head + rest| == |head| + |rest|;
      NodesOkStep(nodes, from);
    }
  }

  /** Every node from `from` on passes exactly when the first one does and every later one does. */
  lemma NodesOkStep(nodes: seq<Value>, from: nat)
    requires from < |nodes|
    ensures (forall i :: from <= i < |nodes| ==> NodeOk(nodes[i]))
      <==> NodeOk(nodes[from]) && forall i :: from + 1 <= i < |nodes| ==> NodeOk(nodes[i])
  {
  }

  function AllEdgeIssues(nodes: seq<Value>, edges: seq<Value>, from: nat): seq<Issue>
    requires from <= |edges|
    decreases |edges| - from
  {
    if from == |edges| then [] else EdgeIssues(nodes, edges[from], from) + AllEdgeIssues(nodes, edges, from + 1)
  }

  /** No edge problem is collected exactly when every edge from `from` on passes its checks. */
  lemma {:induction false} AllEdgeIssuesEmpty(nodes: seq<Value>, edges: seq<Value>, from: nat)
    requires from <= |edges|
    ensures AllEdgeIssues(nodes, edges, from) == [] <==> forall j :: from <= j < |edges| ==> EdgeOk(nodes, edges[j])
    decreases |edges| - from
  {
    if from < |edges| {
      var head := EdgeIssues(nodes, edges[from], from);
      var rest := AllEdgeIssues(nodes, edges, from + 1);
      EdgeIssuesEmpty(nodes, edges[from], from);
      AllEdgeIssuesEmpty(nodes, edges, from + 1);
      assert AllEdgeIssues(nodes, edges, from) == head + rest;
      assert |head + rest| == |head| + |rest|;
      EdgesOkStep(nodes, edges, from);
    }
  }

  /** Every edge from `from` on passes exactly when the first one does and every later one does. */
  lemma EdgesOkStep(nodes: seq<Value>, edges: seq<Value>, from: nat)
    requires from < |edges|
    ensures (forall j :: from <= j < |edges| ==> EdgeOk(nodes, edges[j]))
      <==> EdgeOk(nodes, edges[from]) && forall j :: from + 1 <= j < |edges| ==> EdgeOk(nodes, edges[j])
  {
  }

  /** `!workflow.nodes || workflow.nodes.length === 0`. */
  predicate NoNodesGiven(nodes: Value) {
    !Truthy(nodes) || StrictEq(Get(nodes, "length"), JNum(0))
  }

  /** `array.some(f)` for a callback that may throw: it stops at the first `true` or the first throw. */
  function SomeOf(items: seq<Value>, f: Value -> Result<bool>): Result<bool> {
    if items == [] then Ok(false)
    else
      match f(items[0])
      case Err(e) => Err(e)
      case Ok(b) => if b then Ok(true) else SomeOf(items[1..], f)
  }

  /** `Array.prototype.some`, as a loop. */
  method Some(items: seq<Value>, f: Value -> Result<bool>) returns (r: Result<bool>)
    ensures r == SomeOf(items, f)
  {
    var i := 0;
    while i < |items|
      invariant 0 <= i <= |items|
      invariant SomeOf(items[i..], f) == SomeOf(items, f)
    {
      assert items[i..][1..] == items[i + 1..];
      var b := f(items[i]);
      if b.Err? {
        return Err(b.error);
      }
      if b.value {
        return Ok(true);
      }
      i := i + 1;
    }
    return Ok(false);
  }

  /** The callback of the entry-point check: `node.data.type` throws on a node it cannot read. */
  function EntryCallback(unseen: Unseen): Value -> Result<bool> {
    node => if Readable(node) then Ok(IsEntryNode(unseen, node)) else Err(TypeErrorMessage)
  }

  /**
   * The entry-point check throws only when some node cannot be read, and
   * otherwise says whether some node is an entry point.
   */
  lemma EntryCheck(unseen: Unseen, items: seq<Value>)
    ensures SomeOf(items, EntryCallback(unseen)).Err? ==> exists k :: 0 <= k < |items| && !Readable(items[k])
    ensures (forall k :: 0 <= k < |items| ==> Readable(items[k])) ==>
      SomeOf(items, EntryCallback(unseen)) == Ok(exists k :: 0 <= k < |items| && IsEntryNode(unseen, items[k]))
  {
    EntryThrows(unseen, items);
    if forall k :: 0 <= k < |items| ==> Readable(items[k]) {
      EntryFound(unseen, items);
    }
  }

  lemma {:induction false} EntryThrows(unseen: Unseen, items: seq<Value>)
    ensures SomeOf(items, EntryCallback(unseen)).Err? ==> exists k :: 0 <= k < |items| && !Readable(items[k])
  {
    if items != [] && SomeOf(items, EntryCallback(unseen)).Err? && Readable(items[0]) {
      EntryThrows(unseen, items[1..]);
      var k :| 0 <= k < |items[1..]| && !Readable(items[1..][k]);
      assert items[1..][k] == items[k + 1];
    }
  }

  lemma {:induction false} EntryFound(unseen: Unseen, items: seq<Value>)
    requires forall k :: 0 <= k < |items| ==> Readable(items[k])
    ensures SomeOf(items, EntryCallback(unseen)) == Ok(exists k :: 0 <= k < |items| && IsEntryNode(unseen, items[k]))
  {
    if items != [] {
      EntryFound(unseen, items[1..]);
      assert EntryCallback(unseen)(items[0]) == Ok(IsEntryNode(unseen, items[0]));
      assert forall k :: 1 <= k < |items| ==> items[k] == items[1..][k - 1];
    }
  }

  function Issues(unseen: Unseen, entry: bool, nodes: seq<Value>, edges: seq<Value>): seq<Issue> {
    (if entry then [] else [NoEntry]) + AllNodeIssues(nodes, 0) + AllEdgeIssues(nodes, edges, 0)
  }

  /** What `validateWorkflow({nodes, edges})` returns, or the TypeError it throws. */
  function Validate(unseen: Unseen, nodes: Value, edges: Value): Result<Validation> {
    if NoNodesGiven(nodes) then Ok(Validation(false, [NoNodesMessage]))
    else if !nodes.JArr? then Err(TypeErrorMessage)
    else
      var entry := SomeOf(nodes.items, EntryCallback(unseen));
      if entry.Err? then Err(entry.error)
      else if exists i :: 0 <= i < |nodes.items| && !Readable(nodes.items[i]) then Err(TypeErrorMessage)
      else if !edges.JArr? then Err(TypeErrorMessage)
      else if exists j :: 0 <= j < |edges.items| && Nullish(edges.items[j]) then Err(TypeErrorMessage)
      else
        var issues := Issues(unseen, entry.value, nodes.items, edges.items);
        Ok(Validation(|issues| == 0, Messages(issues)))
  }

  /** `workflow.nodes.forEach(...)`, appending each node's problems. */
  method CheckNodes(items: seq<Value>, issues: seq<Issue>) returns (r: Result<seq<Issue>>)
    ensures r.Ok? <==> forall k :: 0 <= k < |items| ==> Readable(items[k])
    ensures r.Ok? ==> r.value == issues + AllNodeIssues(items, 0)
  {
    var acc := issues;
    var i := 0;
    while i < |items|
      invariant 0 <= i <= |items|
      invariant forall k :: 0 <= k < i ==> Readable(items[k])
      invariant acc + AllNodeIssues(items, i) == issues + AllNodeIssues(items, 0)
    {
      if !Readable(items[i]) {
        return Err(TypeErrorMessage);
      }
      NodeIssuesStep(items, i, acc);
      acc := acc + NodeIssues(items[i], i);
      i := i + 1;
    }
    AppendEmpty(acc);
    return Ok(acc);
  }

  /** One round of the node loop: appending one node's problems keeps the collected total. */
  lemma NodeIssuesStep(items: seq<Value>, i: nat, acc: seq<Issue>)
    requires i < |items|
    ensures acc + AllNodeIssues(items, i) == (acc + NodeIssues(items[i], i)) + AllNodeIssues(items, i + 1)
  {
    AppendAssoc(acc, NodeIssues(items[i], i), AllNodeIssues(items, i + 1));
  }

  /** `workflow.edges.forEach(...)`, appending each edge's problems. */
  method CheckEdges(items: seq<Value>, links: seq<Value>, issues: seq<Issue>) returns (r: Result<seq<Issue>>)
    ensures r.Ok? <==> forall k :: 0 <= k < |links| ==> !Nullish(links[k])
    ensures r.Ok? ==> r.value == issues + AllEdgeIssues(items, links, 0)
  {
    var acc := issues;
    var j := 0;
    while j < |links|
      invariant 0 <= j <= |links|
      invariant forall k :: 0 <= k < j ==> !Nullish(links[k])
      invariant acc + AllEdgeIssues(items, links, j) == issues + AllEdgeIssues(items, links, 0)
    {
      if Nullish(links[j]) {
        return Err(TypeErrorMessage);
      }
      EdgeIssuesStep(items, links, j, acc);
      acc := acc + EdgeIssues(items, links[j], j);
      j := j + 1;
    }
    AppendEmpty(acc);
    return Ok(acc);
  }

  /** One round of the edge loop: appending one edge's problems keeps the collected total. */
  lemma EdgeIssuesStep(items: seq<Value>, links: seq<Value>, j: nat, acc: seq<Issue>)
    requires j < |links|
    ensures acc + AllEdgeIssues(items, links, j) == (acc + EdgeIssues(items, links[j], j)) + AllEdgeIssues(items, links, j + 1)
  {
    AppendAssoc(acc, EdgeIssues(items, links[j], j), AllEdgeIssues(items, links, j + 1));
  }

  /** `validateWorkflow`: the entry-point check, then one pass over the nodes and one over the edges. */
  method ValidateWorkflow(unseen: Unseen, nodes: Value, edges: Value) returns (r: Result<Validation>)
    ensures r == Validate(unseen, nodes, edges)
  {
    if NoNodesGiven(nodes) {
      return Ok(Validation(false, [NoNodesMessage]));
    }
    if !nodes.JArr? {
      return Err(TypeErrorMessage);
    }
    var entry := Some(nodes.items, EntryCallback(unseen));
    if entry.Err? {
      return Err(entry.error);
    }
    var afterNodes := CheckNodes(nodes.items, if entry.value then [] else [NoEntry]);
    if afterNodes.Err? {
      return Err(TypeErrorMessage);
    }
    if !edges.JArr? {
      return Err(TypeErrorMessage);
    }
    var issues := CheckEdges(nodes.items, edges.items, afterNodes.value);
    if issues.Err? {
      return Err(TypeErrorMessage);
    }
    return Ok(Validation(|issues.value| == 0, Messages(issues.value)));
  }

  /**
   * The call throws exactly when the node list is an array holding a node or
   * `data` that cannot be read, or the edges are not an array or hold a
   * missing edge.
   */
  lemma ValidateThrows(unseen: Unseen, nodes: Value, edges: Value)
    requires !NoNodesGiven(nodes)
    ensures Validate(unseen, nodes, edges).Err? <==>
      || !nodes.JArr?
      || (exists i :: 0 <= i < |nodes.items| && !Readable(nodes.items[i]))
      || !edges.JArr?
      || (exists j :: 0 <= j < |edges.items| && Nullish(edges.items[j]))
  {
    if nodes.JArr? {
      EntryCheck(unseen, nodes.items);
    }
  }

  /** `isValid` holds exactly when no message was collected. */
  lemma ValidIffNoErrors(unseen: Unseen, nodes: Value, edges: Value)
    requires Validate(unseen, nodes, edges).Ok?
    ensures Validate(unseen, nodes, edges).value.isValid <==> Validate(unseen, nodes, edges).value.errors == []
  {
  }

  /** Without nodes the result is invalid with exactly one message, whatever the edges. */
  lemma NoNodesSingleError(unseen: Unseen, edges: Value)
    ensures Validate(unseen, JArr([]), edges) == Ok(Validation(false, [NoNodesMessage]))
    ensures Validate(unseen, JUndefined, edges) == Ok(Validation(false, [NoNodesMessage]))
  {
  }

  /**
   * A workflow with nodes is valid iff some node is an entry point, every node
   * has an id, a known task type and a position, and every edge has an id and
   * two endpoints that are ids of nodes. Cycles and handle types are not
   * checked.
   */
  lemma ValidCharacterization(unseen: Unseen, nodes: seq<Value>, edges: seq<Value>)
    requires |nodes| > 0
    requires forall i :: 0 <= i < |nodes| ==> Readable(nodes[i])
    requires forall j :: 0 <= j < |edges| ==> !Nullish(edges[j])
    ensures Validate(unseen, JArr(nodes), JArr(edges)).Ok?
    ensures Validate(unseen, JArr(nodes), JArr(edges)).value.isValid <==>
      && (exists i :: 0 <= i < |nodes| && IsEntryNode(unseen, nodes[i]))
      && (forall i :: 0 <= i < |nodes| ==> NodeOk(nodes[i]))
      && (forall j :: 0 <= j < |edges| ==> EdgeOk(nodes, edges[j]))
  {
    var entry := exists i :: 0 <= i < |nodes| && IsEntryNode(unseen, nodes[i]);
    ValidateReadable(unseen, nodes, edges);
    IssuesEmpty(unseen, entry, nodes, edges);
  }

  /** The collected issues are empty exactly when there is an entry node and every node and edge is fine. */
  lemma IssuesEmpty(unseen: Unseen, entry: bool, nodes: seq<Value>, edges: seq<Value>)
    ensures |Issues(unseen, entry, nodes, edges)| == 0 <==>
      && entry
      && (forall i :: 0 <= i < |nodes| ==> NodeOk(nodes[i]))
      && (forall j :: 0 <= j < |edges| ==> EdgeOk(nodes, edges[j]))
  {
    var a := if entry then [] else [NoEntry];
    var b := AllNodeIssues(nodes, 0);
    var c := AllEdgeIssues(nodes, edges, 0);
    AllNodeIssuesEmpty(nodes, 0);
    AllEdgeIssuesEmpty(nodes, edges, 0);
    assert |a + b + c| == |a| + |b| + |c|;
  }

  /** On readable nodes and present edges the call returns the collected issues. */
  lemma ValidateReadable(unseen: Unseen, nodes: seq<Value>, edges: seq<Value>)
    requires |nodes| > 0
    requires forall i :: 0 <= i < |nodes| ==> Readable(nodes[i])
    requires forall j :: 0 <= j < |edges| ==> !Nullish(edges[j])
    ensures var issues := Issues(unseen, exists i :: 0 <= i < |nodes| && IsEntryNode(unseen, nodes[i]), nodes, edges);
      Validate(unseen, JArr(nodes), JArr(edges)) == Ok(Validation(|issues| == 0, Messages(issues)))
  {
    assert Get(JArr(nodes), "length") == JNum(|nodes|);
    EntryCheck(unseen, nodes);
  }

  lemma {:induction false} AllNodeIssuesContain(nodes: seq<Value>, from: nat, i: nat, issue: Issue)
    requires from <= i < |nodes| && issue in NodeIssues(nodes[i], i)
    ensures issue in AllNodeIssues(nodes, from)
    decreases |nodes| - from
  {
    var head := NodeIssues(nodes[from], from);
    var rest := AllNodeIssues(nodes, from + 1);
    assert AllNodeIssues(nodes, from) == head + rest;
    if from < i {
      AllNodeIssuesContain(nodes, from + 1, i, issue);
    }
    InConcat(issue, head, rest);
  }

  lemma InConcat<T>(x: T, a: seq<T>, b: seq<T>)
    requires x in a || x in b
    ensures x in a + b
  {
  }

  lemma {:induction false} AllEdgeIssuesContain(nodes: seq<Value>, edges: seq<Value>, from: nat, j: nat, issue: Issue)
    requires from <= j < |edges| && issue in EdgeIssues(nodes, edges[j], j)
    ensures issue in AllEdgeIssues(nodes, edges, from)
    decreases |edges| - from
  {
    var head := EdgeIssues(nodes, edges[from], from);
    var rest := AllEdgeIssues(nodes, edges, from + 1);
    assert AllEdgeIssues(nodes, edges, from) == head + rest;
    if from < j {
      AllEdgeIssuesContain(nodes, edges, from + 1, j, issue);
    }
    InConcat(issue, head, rest);
  }

  lemma MessageOf(issues: seq<Issue>, issue: Issue)
    requires issue in issues
    ensures Message(issue) in Messages(issues)
  {
    var k :| 0 <= k < |issues| && issues[k] == issue;
    assert Messages(issues)[k] == Message(issue);
  }

  /** Without an entry node, the entry-point message is reported first. */
  lemma MissingEntryReported(unseen: Unseen, nodes: seq<Value>, edges: Value)
    requires Validate(unseen, JArr(nodes), edges).Ok? && |nodes| > 0
    requires forall i :: 0 <= i < |nodes| ==> !IsEntryNode(unseen, nodes[i])
    ensures var errors := Validate(unseen, JArr(nodes), edges).value.errors;
      |errors| > 0 && errors[0] == NoEntryMessage
    ensures !Validate(unseen, JArr(nodes), edges).value.isValid
  {
    assert Get(JArr(nodes), "length") == JNum(|nodes|);
    EntryCheck(unseen, nodes);
  }

  /** Every edge whose source or target is not a node id contributes its message. */
  lemma DanglingEdgeReported(unseen: Unseen, nodes: seq<Value>, edges: seq<Value>, j: nat)
    requires Validate(unseen, JArr(nodes), JArr(edges)).Ok? && j < |edges|
    requires |nodes| > 0
    ensures !NodeExists(nodes, Get(edges[j], "source")) ==>
      Message(DanglingSource(j, Get(edges[j], "source"))) in Validate(unseen, JArr(nodes), JArr(edges)).value.errors
    ensures !NodeExists(nodes, Get(edges[j], "target")) ==>
      Message(DanglingTarget(j, Get(edges[j], "target"))) in Validate(unseen, JArr(nodes), JArr(edges)).value.errors
  {
    var source := Get(edges[j], "source");
    var target := Get(edges[j], "target");
    assert Get(JArr(nodes), "length") == JNum(|nodes|);
    var entry := SomeOf(nodes, EntryCallback(unseen)).value;
    var issues := Issues(unseen, entry, nodes, edges);
    if !NodeExists(nodes, source) {
      AllEdgeIssuesContain(nodes, edges, 0, j, DanglingSource(j, source));
      MessageOf(issues, DanglingSource(j, source));
    }
    if !NodeExists(nodes, target) {
      AllEdgeIssuesContain(nodes, edges, 0, j, DanglingTarget(j, target));
      MessageOf(issues, DanglingTarget(j, target));
    }
  }

  /** Every node without an id or position contributes its message. */
  lemma BadNodeReported(unseen: Unseen, nodes: seq<Value>, edges: seq<Value>, i: nat)
    requires Validate(unseen, JArr(nodes), JArr(edges)).Ok? && i < |nodes|
    ensures !Truthy(Get(nodes[i], "id")) ==> Message(MissingId(i)) in Validate(unseen, JArr(nodes), JArr(edges)).value.errors
    ensures !Truthy(Get(nodes[i], "position")) ==>
      Message(MissingPosition(i)) in Validate(unseen, JArr(nodes), JArr(edges)).value.errors
  {
    var entry := SomeOf(nodes, EntryCallback(unseen)).value;
    var issues := Issues(unseen, entry, nodes, edges);
    ValidateOk(unseen, nodes, edges);
    if !Truthy(Get(nodes[i], "id")) {
      AllNodeIssuesContain(nodes, 0, i, MissingId(i));
      MessageOf(issues, MissingId(i));
    }
    if !Truthy(Get(nodes[i], "position")) {
      AllNodeIssuesContain(nodes, 0, i, MissingPosition(i));
      MessageOf(issues, MissingPosition(i));
    }
  }

  /** A call on a non-empty node list that returns reports the collected issues. */
  lemma ValidateOk(unseen: Unseen, nodes: seq<Value>, edges: seq<Value>)
    requires Validate(unseen, JArr(nodes), JArr(edges)).Ok? && nodes != []
    ensures SomeOf(nodes, EntryCallback(unseen)).Ok?
    ensures var issues := Issues(unseen, SomeOf(nodes, EntryCallback(unseen)).value, nodes, edges);
      Validate(unseen, JArr(nodes), JArr(edges)).value.errors == Messages(issues)
  {
    assert Get(JArr(nodes), "length") == JNum(|nodes|);
  }
}
