/**
 * `parseAIWorkflow` and `generateAutoEdges`: turning an AI reply into a
 * workflow graph.
 *
 * The reply is untyped JSON, so nodes and edges are `Json.Value`s. Every
 * TypeError the source can raise while rewriting them (a `null` node, a
 * missing `data`, a non-array `nodes`, a node without position during the
 * sort) is caught by the surrounding `try` and reported as "Failed to parse
 * AI response". `JSON.parse` is the parameter `parse`; `crypto.randomUUID` is
 * the parameter `uuid`, whose i-th value is the id drawn for the i-th node.
 */
module WorkflowAi {
  import opened Common
  import opened Strings
  import opened Json
  import opened Registry
  import FlowOrder

  const StreamingMessage: string := "JSON streaming in progress"
  const NoJsonMessage: string := "No JSON found in AI response"
  const InvalidMessage: string := "Invalid workflow structure in response"
  const FailedMessage: string := "Failed to parse AI response"
  const DefaultExplanation: string := "Workflow generated successfully"
  const FlowNodeType: string := "FlowScrapeNode"
  const DragHandle: string := ".drag-handle"

  /** What `parseAIWorkflow` returns: a workflow with its explanation, or an error. */
  datatype AiResponse =
    | Generated(nodes: seq<Value>, edges: seq<Value>, explanation: Value)
    | Failure(error: string)

  // ---------------------------------------------------------------------
  // Locating the JSON text: the match of /\{[\s\S]*\}/
  // ---------------------------------------------------------------------

  function FirstIndexOf(s: string, c: char): (r: Option<nat>)
    ensures r.Some? ==> r.value < |s| && s[r.value] == c && c !in s[..r.value]
    ensures r.None? ==> c !in s
  {
    if s == [] then None
    else if s[0] == c then Some(0)
    else
      var rest := FirstIndexOf(s[1..], c);
      if rest.Some? then
        assert s[..rest.value + 1] == [s[0]] + s[1..][..rest.value];
        Some(rest.value + 1)
      else None
  }

  function LastIndexOf(s: string, c: char): (r: Option<nat>)
    ensures r.Some? ==> r.value < |s| && s[r.value] == c && c !in s[r.value + 1..]
    ensures r.None? ==> c !in s
  {
    if s == [] then None
    else if s[|s| - 1] == c then Some(|s| - 1)
    else
      var rest := LastIndexOf(s[..|s| - 1], c);
      if rest.Some? then
        assert s[rest.value + 1..] == s[..|s| - 1][rest.value + 1..] + [s[|s| - 1]];
        Some(rest.value)
      else
        assert s == s[..|s| - 1] + [s[|s| - 1]];
        None
  }

  /**
   * The leftmost-longest match of `/\{[\s\S]*\}/`: from the first '{' to the
   * last '}', provided that '}' comes after it.
   */
  function JsonSpan(s: string): Option<string> {
    var i := FirstIndexOf(s, '{');
    var j := LastIndexOf(s, '}');
    if i.Some? && j.Some? && i.value < j.value then Some(s[i.value..j.value + 1]) else None
  }

  /**
   * A match exists iff some '{' is followed by some '}'; it then starts with
   * '{', ends with '}', and nothing outside it is a '{' before or a '}' after.
   */
  lemma JsonSpanSpec(s: string)
    ensures JsonSpan(s).Some? <==> exists i, j :: 0 <= i < j < |s| && s[i] == '{' && s[j] == '}'
    ensures JsonSpan(s).Some? ==>
      exists i, j :: 0 <= i < j < |s| && JsonSpan(s).value == s[i..j + 1]
        && s[i] == '{' && s[j] == '}' && '{' !in s[..i] && '}' !in s[j + 1..]
  {
    var i := FirstIndexOf(s, '{');
    var j := LastIndexOf(s, '}');
    if exists a, b :: 0 <= a < b < |s| && s[a] == '{' && s[b] == '}' {
      var a, b :| 0 <= a < b < |s| && s[a] == '{' && s[b] == '}';
      assert s[a] in s;
      assert s[b] in s;
    }
  }

  // ---------------------------------------------------------------------
  // Node rewriting
  // ---------------------------------------------------------------------

  /** The nodes the rewriting accepts: neither the node nor its `data` is `undefined` or `null`. */
  predicate Rewritable(node: Value) {
    !Nullish(node) && !Nullish(Get(node, "data"))
  }

  /** The updates `{...node.data, inputs: node.data.inputs || {}}` applies. */
  function DataUpdates(data: Value): Fields {
    [("inputs", Or(Get(data, "inputs"), JObj([])))]
  }

  /** The updates the node spread applies, given the new `data` object. */
  function NodeUpdates(newId: string, data: Value): Fields {
    [("id", JStr(newId)), ("type", JStr(FlowNodeType)), ("dragHandle", JStr(DragHandle)), ("data", data)]
  }

  /**
   * `{...node, id: newId, type: 'FlowScrapeNode', dragHandle: '.drag-handle',
   *   data: {...node.data, inputs: node.data.inputs || {}}}`.
   */
  function ProcessNode(node: Value, newId: string): Value
    requires Rewritable(node)
  {
    var data := Get(node, "data");
    SpreadWith(node, NodeUpdates(newId, SpreadWith(data, DataUpdates(data))))
  }

  /**
   * `nodes.map(...)` with node i taking the id `uuid(i)`; reading `node.data`
   * or `node.data.inputs` throws a TypeError when a node or its data is
   * `undefined` or `null`.
   */
  function ProcessNodes(nodes: seq<Value>, uuid: nat -> string): (r: Result<seq<Value>>)
    ensures r.Ok? ==> |r.value| == |nodes|
  {
    if forall i :: 0 <= i < |nodes| ==> Rewritable(nodes[i])
    then Ok(seq(|nodes|, i requires 0 <= i < |nodes| => ProcessNode(nodes[i], uuid(i))))
    else Err(TypeErrorMessage)
  }

  /** A rewritten node has the fresh id, the node type 'FlowScrapeNode' and the drag handle. */
  lemma ProcessNodeFixed(node: Value, newId: string)
    requires Rewritable(node)
    ensures Get(ProcessNode(node, newId), "id") == JStr(newId)
    ensures Get(ProcessNode(node, newId), "type") == JStr(FlowNodeType)
    ensures Get(ProcessNode(node, newId), "dragHandle") == JStr(DragHandle)
  {
    assert "type"[0] != "data"[0];
    var ups := NodeUpdates(newId, SpreadWith(Get(node, "data"), DataUpdates(Get(node, "data"))));
    GetSpreadAt(node, ups, 0, "id");
    GetSpreadAt(node, ups, 1, "type");
    GetSpreadAt(node, ups, 2, "dragHandle");
  }

  /** Every key of the node other than the four assigned ones is kept. */
  lemma ProcessNodeKeeps(node: Value, newId: string, k: string)
    requires Rewritable(node)
    requires k !in ["id", "type", "dragHandle", "data"]
    ensures Get(ProcessNode(node, newId), k) == Lookup(OwnFields(node), k)
  {
    var ups := NodeUpdates(newId, SpreadWith(Get(node, "data"), DataUpdates(Get(node, "data"))));
    GetSpreadUntouched(node, ups, k);
  }

  /** The rewritten `data` defaults `inputs` to `{}` and keeps every other key of the original `data`. */
  lemma ProcessNodeData(node: Value, newId: string, k: string)
    requires Rewritable(node)
    ensures var data := Get(ProcessNode(node, newId), "data");
      && Get(data, "inputs") == Or(Get(Get(node, "data"), "inputs"), JObj([]))
      && (k != "inputs" ==> Get(data, k) == Lookup(OwnFields(Get(node, "data")), k))
  {
    var data := Get(node, "data");
    var inner := SpreadWith(data, DataUpdates(data));
    GetSpreadAt(node, NodeUpdates(newId, inner), 3, "data");
    GetSpreadAt(data, DataUpdates(data), 0, "inputs");
    if k != "inputs" {
      GetSpreadUntouched(data, DataUpdates(data), k);
    }
  }

  // ---------------------------------------------------------------------
  // The old-id to new-id map (a Map keyed by SameValueZero)
  // ---------------------------------------------------------------------

  type IdMap = seq<(Value, string)>

  /** `map.set(k, v)`: an existing key keeps its place and takes the new value. */
  function MapSet(m: IdMap, k: Value, v: string): IdMap {
    if m == [] then [(k, v)]
    else if StrictEq(m[0].0, k) then [(m[0].0, v)] + m[1..]
    else [m[0]] + MapSet(m[1..], k, v)
  }

  /** `map.get(k)`. */
  function MapGet(m: IdMap, k: Value): Option<string> {
    if m == [] then None
    else if StrictEq(m[0].0, k) then Some(m[0].1)
    else MapGet(m[1..], k)
  }

  lemma {:induction false} MapGetSet(m: IdMap, k: Value, v: string, j: Value)
    ensures MapGet(MapSet(m, k, v), j) == if StrictEq(k, j) then Some(v) else MapGet(m, j)
  {
    if m != [] && !StrictEq(m[0].0, k) {
      MapGetSet(m[1..], k, v, j);
    }
    if m != [] && StrictEq(m[0].0, k) {
      StrictEqTransitive(m[0].0, k, j);
    }
  }

  lemma StrictEqTransitive(a: Value, b: Value, c: Value)
    requires StrictEq(a, b)
    ensures StrictEq(a, c) <==> StrictEq(b, c)
  {
  }

  /** The map `parsed.nodes.forEach` builds: each node with a truthy `id` maps it to the node's new id. */
  function BuildIdMap(nodes: seq<Value>, uuid: nat -> string): IdMap
    decreases |nodes|
  {
    if nodes == [] then []
    else
      var n := |nodes| - 1;
      var m := BuildIdMap(nodes[..n], uuid);
      var prior := Get(nodes[n], "id");
      if Truthy(prior) then MapSet(m, prior, uuid(n)) else m
  }

  /** Does the node carry a truthy id equal to `k`? */
  predicate IdMatches(node: Value, k: Value) {
    Truthy(Get(node, "id")) && StrictEq(Get(node, "id"), k)
  }

  /** The index of the last node whose truthy id equals `k`. */
  function LastMatch(nodes: seq<Value>, k: Value): (r: Option<nat>)
    ensures r.None? <==> forall i :: 0 <= i < |nodes| ==> !IdMatches(nodes[i], k)
    ensures r.Some? ==> r.value < |nodes| && IdMatches(nodes[r.value], k)
    ensures r.Some? ==> forall j :: r.value < j < |nodes| ==> !IdMatches(nodes[j], k)
    decreases |nodes|
  {
    if nodes == [] then None
    else if IdMatches(nodes[|nodes| - 1], k) then Some(|nodes| - 1)
    else
      var prefix := nodes[..|nodes| - 1];
      assert forall i :: 0 <= i < |nodes| - 1 ==> nodes[i] == prefix[i];
      LastMatch(prefix, k)
  }

  /**
   * The map sends `k` to the new id of the LAST node whose truthy id equals
   * `k` (a later duplicate overwrites an earlier one), and is undefined on
   * keys no node carries.
   */
  lemma {:induction false} BuildIdMapSpec(nodes: seq<Value>, uuid: nat -> string, k: Value)
    ensures MapGet(BuildIdMap(nodes, uuid), k)
         == if LastMatch(nodes, k).Some? then Some(uuid(LastMatch(nodes, k).value)) else None
    decreases |nodes|
  {
    if nodes != [] {
      var n := |nodes| - 1;
      var prefix := nodes[..n];
      BuildIdMapSpec(prefix, uuid, k);
      var prior := Get(nodes[n], "id");
      if Truthy(prior) {
        MapGetSet(BuildIdMap(prefix, uuid), prior, uuid(n), k);
        if StrictEq(prior, k) {
          assert IdMatches(nodes[n], k);
        } else {
          assert !IdMatches(nodes[n], k);
        }
      }
    }
  }

  // ---------------------------------------------------------------------
  // Edge rewriting
  // ---------------------------------------------------------------------

  /** `idMapping.get(v) || v`. */
  function Renamed(m: IdMap, v: Value): Value {
    match MapGet(m, v)
    case Some(n) => Or(JStr(n), v)
    case None => v
  }

  /** The `xy-edge__<source><sourceHandle>-<target><targetHandle>` id. */
  function XyEdgeId(source: Value, sourceHandle: Value, target: Value, targetHandle: Value): string {
    "xy-edge__" + ToStr(source) + ToStr(Or(sourceHandle, JStr(""))) + "-"
      + ToStr(target) + ToStr(Or(targetHandle, JStr("")))
  }

  /** The updates the edge spread applies: the new id, both renamed endpoints, `animated: true`. */
  function EdgeUpdates(edge: Value, m: IdMap): Fields {
    var source := Renamed(m, Get(edge, "source"));
    var target := Renamed(m, Get(edge, "target"));
    [("id", JStr(XyEdgeId(source, Get(edge, "sourceHandle"), target, Get(edge, "targetHandle")))),
     ("source", source),
     ("target", target),
     ("animated", JBool(true))]
  }

  /** `{...edge, id, source, target, animated: true}`; reading `edge.source` of a missing edge throws. */
  function ProcessEdge(edge: Value, m: IdMap): Value
    requires !Nullish(edge)
  {
    SpreadWith(edge, EdgeUpdates(edge, m))
  }

  /** `edges.map(...)`: a TypeError when some edge is `undefined` or `null`. */
  function ProcessEdges(edges: seq<Value>, m: IdMap): (r: Result<seq<Value>>)
    ensures r.Ok? ==> |r.value| == |edges|
  {
    if forall i :: 0 <= i < |edges| ==> !Nullish(edges[i])
    then Ok(seq(|edges|, i requires 0 <= i < |edges| => ProcessEdge(edges[i], m)))
    else Err(TypeErrorMessage)
  }

  /**
   * A rewritten edge has both endpoints renamed through the map (unchanged
   * when absent from it), the xy-edge id built from them and `animated: true`.
   */
  lemma ProcessEdgeSpec(edge: Value, m: IdMap)
    requires !Nullish(edge)
    ensures var source := Renamed(m, Get(edge, "source"));
      var target := Renamed(m, Get(edge, "target"));
      && Get(ProcessEdge(edge, m), "source") == source
      && Get(ProcessEdge(edge, m), "target") == target
      && Get(ProcessEdge(edge, m), "id") == JStr(XyEdgeId(source, Get(edge, "sourceHandle"), target, Get(edge, "targetHandle")))
      && Get(ProcessEdge(edge, m), "animated") == JBool(true)
  {
    var ups := EdgeUpdates(edge, m);
    assert "source"[0] != "target"[0];
    GetSpreadAt(edge, ups, 0, "id");
    GetSpreadAt(edge, ups, 1, "source");
    GetSpreadAt(edge, ups, 2, "target");
    GetSpreadAt(edge, ups, 3, "animated");
  }

  /** Every other key of the edge, its handles among them, is kept. */
  lemma ProcessEdgeKeeps(edge: Value, m: IdMap, k: string)
    requires !Nullish(edge)
    requires k !in ["id", "source", "target", "animated"]
    ensures Get(ProcessEdge(edge, m), k) == Lookup(OwnFields(edge), k)
  {
    GetSpreadUntouched(edge, EdgeUpdates(edge, m), k);
  }

  /** `edges.some(edge => !edge.sourceHandle || !edge.targetHandle)`. */
  predicate NeedsHandles(edges: seq<Value>) {
    exists i :: 0 <= i < |edges| && (!Truthy(Get(edges[i], "sourceHandle")) || !Truthy(Get(edges[i], "targetHandle")))
  }

  // ---------------------------------------------------------------------
  // generateAutoEdges
  // ---------------------------------------------------------------------

  /** A numeric coordinate, or 0 for anything else. */
  function Coordinate(v: Value): int {
    if v.JNum? then v.n else 0
  }

  /** `node.position` read as a (y, x) sort key. */
  function SortKey(node: Value): FlowOrder.Key {
    var p := Get(node, "position");
    (Coordinate(Get(p, "y")), Coordinate(Get(p, "x")))
  }

  /** `TaskRegistry[node.data.type]`: the key is the type's string conversion. */
  function NodeTask(unseen: Unseen, node: Value): Option<Descriptor> {
    TaskByName(unseen, ToStr(Get(Get(node, "data"), "type")))
  }

  /** `task?.inputs?.find(input => !input.hideHandle)`. */
  function FirstVisibleInput(inputs: seq<TaskParam>): (r: Option<TaskParam>)
    ensures r.Some? ==> r.value in inputs && !r.value.hideHandle
    ensures r.Some? ==> exists i :: 0 <= i < |inputs| && inputs[i] == r.value && forall j :: 0 <= j < i ==> inputs[j].hideHandle
    ensures r.None? ==> forall i :: 0 <= i < |inputs| ==> inputs[i].hideHandle
  {
    if inputs == [] then None
    else if !inputs[0].hideHandle then Some(inputs[0])
    else
      var rest := FirstVisibleInput(inputs[1..]);
      if rest.Some? then
        var i :| 0 <= i < |inputs[1..]| && inputs[1..][i] == rest.value && forall j :: 0 <= j < i ==> inputs[1..][j].hideHandle;
        assert inputs[i + 1] == rest.value;
        Some(rest.value)
      else None
  }

  /** The handle pair of a chain edge: the source's first output and the target's first visible input. */
  function AutoHandles(unseen: Unseen, source: Value, target: Value): Option<(string, string)> {
    var st := NodeTask(unseen, source);
    var tt := NodeTask(unseen, target);
    var output := if st.Some? && |st.value.outputs| > 0 then Some(st.value.outputs[0].name) else None;
    var input := if tt.Some? then FirstVisibleInput(tt.value.inputs) else None;
    if output.Some? && input.Some? then Some((output.value, input.value.name)) else None
  }

  /** The edge linking two consecutive sorted nodes, with the handle pair `h` when there is one. */
  function ChainEdge(source: Value, target: Value, h: Option<(string, string)>): Value {
    var id := JStr("edge-" + ToStr(Get(source, "id")) + "-" + ToStr(Get(target, "id")));
    match h
    case Some((out, inp)) =>
      JObj([("id", id), ("source", Get(source, "id")), ("target", Get(target, "id")),
            ("sourceHandle", JStr(out)), ("targetHandle", JStr(inp)), ("animated", JBool(true))])
    case None =>
      JObj([("id", id), ("source", Get(source, "id")), ("target", Get(target, "id")), ("animated", JBool(true))])
  }

  function AutoEdge(unseen: Unseen, source: Value, target: Value): Value {
    ChainEdge(source, target, AutoHandles(unseen, source, target))
  }

  /** The comparator reads `position.y` and `position.x` of every node once there are two or more. */
  predicate Sortable(nodes: seq<Value>) {
    |nodes| < 2 || forall i :: 0 <= i < |nodes| ==> !Nullish(nodes[i]) && !Nullish(Get(nodes[i], "position"))
  }

  /** The logging pass over the sorted nodes reads `n.id` and `n.data.type`. */
  predicate Loggable(nodes: seq<Value>) {
    forall i :: 0 <= i < |nodes| ==> !Nullish(nodes[i]) && !Nullish(Get(nodes[i], "data"))
  }

  function ChainEdges(unseen: Unseen, sorted: seq<Value>): (r: seq<Value>)
    ensures |r| == if |sorted| == 0 then 0 else |sorted| - 1
  {
    seq(if |sorted| == 0 then 0 else |sorted| - 1, i requires 0 <= i < |sorted| - 1 => AutoEdge(unseen, sorted[i], sorted[i + 1]))
  }

  /** What `generateAutoEdges(nodes)` returns, or the TypeError it throws. */
  function AutoEdges(unseen: Unseen, nodes: seq<Value>): Result<seq<Value>> {
    if !Sortable(nodes) then Err(TypeErrorMessage)
    else
      var sorted := FlowOrder.StableSort(nodes, SortKey);
      if !Loggable(sorted) then Err(TypeErrorMessage)
      else Ok(ChainEdges(unseen, sorted))
  }

  /** `generateAutoEdges`: sort a copy by (y, x), then push one edge per consecutive pair. */
  method GenerateAutoEdges(unseen: Unseen, nodes: seq<Value>) returns (r: Result<seq<Value>>)
    ensures r == AutoEdges(unseen, nodes)
  {
    if !Sortable(nodes) {
      return Err(TypeErrorMessage);
    }
    var sorted := FlowOrder.StableSort(nodes, SortKey);
    if !Loggable(sorted) {
      return Err(TypeErrorMessage);
    }
    var edges := LinkConsecutive(unseen, sorted);
    return Ok(edges);
  }

  /** The `for` loop of `generateAutoEdges`: one edge pushed per consecutive pair of the sorted nodes. */
  method LinkConsecutive(unseen: Unseen, sorted: seq<Value>) returns (edges: seq<Value>)
    ensures edges == ChainEdges(unseen, sorted)
  {
    edges := [];
    var i := 0;
    while i + 1 < |sorted|
      invariant 0 <= i <= if |sorted| == 0 then 0 else |sorted| - 1
      invariant |edges| == i
      invariant forall k :: 0 <= k < i ==> edges[k] == AutoEdge(unseen, sorted[k], sorted[k + 1])
    {
      edges := edges + [AutoEdge(unseen, sorted[i], sorted[i + 1])];
      i := i + 1;
    }
  }

  /** A chain edge goes from the source's id to the target's id and is animated. */
  lemma ChainEdgeEnds(source: Value, target: Value, h: Option<(string, string)>)
    ensures Get(ChainEdge(source, target, h), "id")
         == JStr("edge-" + ToStr(Get(source, "id")) + "-" + ToStr(Get(target, "id")))
    ensures Get(ChainEdge(source, target, h), "source") == Get(source, "id")
    ensures Get(ChainEdge(source, target, h), "target") == Get(target, "id")
    ensures Get(ChainEdge(source, target, h), "animated") == JBool(true)
  {
    var e := ChainEdge(source, target, h);
    LookupAt(e.fields, 0, "id");
    LookupAt(e.fields, 1, "source");
    LookupAt(e.fields, 2, "target");
    LookupAt(e.fields, |e.fields| - 1, "animated");
  }

  /** With a handle pair, the edge carries it as `sourceHandle` and `targetHandle`. */
  lemma ChainEdgeHandles(source: Value, target: Value, h: Option<(string, string)>)
    requires h.Some?
    ensures Get(ChainEdge(source, target, h), "sourceHandle") == JStr(h.value.0)
    ensures Get(ChainEdge(source, target, h), "targetHandle") == JStr(h.value.1)
  {
    var e := ChainEdge(source, target, h);
    assert e.fields[3] == ("sourceHandle", JStr(h.value.0));
    assert e.fields[4] == ("targetHandle", JStr(h.value.1));
    assert "sourceHandle"[0] != "targetHandle"[0];
    LookupAt(e.fields, 3, "sourceHandle");
    LookupAt(e.fields, 4, "targetHandle");
  }

  /** Without one, the edge has no handle keys at all. */
  lemma ChainEdgeNoHandles(source: Value, target: Value, h: Option<(string, string)>)
    requires h.None?
    ensures !HasProperty(ChainEdge(source, target, h), "sourceHandle")
    ensures !HasProperty(ChainEdge(source, target, h), "targetHandle")
  {
    var f := ChainEdge(source, target, h).fields;
    HasKeyAt(f, "sourceHandle");
    HasKeyAt(f, "targetHandle");
    assert forall i :: 0 <= i < |f| ==> |f[i].0| != |"sourceHandle"|;
  }

  /**
   * On success there are max(n - 1, 0) edges, and edge i is the chain edge
   * from the i-th to the (i+1)-th node of the stable (y, x) order.
   */
  lemma AutoEdgesSpec(unseen: Unseen, nodes: seq<Value>)
    requires AutoEdges(unseen, nodes).Ok?
    ensures var edges := AutoEdges(unseen, nodes).value;
      var sorted := FlowOrder.StableSort(nodes, SortKey);
      && |edges| == (if |nodes| == 0 then 0 else |nodes| - 1)
      && forall i :: 0 <= i < |edges| ==> edges[i] == AutoEdge(unseen, sorted[i], sorted[i + 1])
  {
  }

  /** Zero or one node yields no edges, whatever their positions. */
  lemma AutoEdgesSmall(unseen: Unseen, nodes: seq<Value>)
    requires |nodes| <= 1 && Loggable(nodes)
    ensures AutoEdges(unseen, nodes) == Ok([])
  {
    FlowOrder.StableSortSpec(nodes, SortKey);
    if |nodes| == 1 {
      var sorted := FlowOrder.StableSort(nodes, SortKey);
      assert sorted[0] in multiset(nodes);
    }
  }

  // ---------------------------------------------------------------------
  // parseAIWorkflow
  // ---------------------------------------------------------------------

  /** The rewriting shared by both accepted shapes; the error is a caught TypeError. */
  function ProcessGraph(unseen: Unseen, uuid: nat -> string, nodes: Value, edges: Value): Result<(seq<Value>, seq<Value>)> {
    if !nodes.JArr? then Err(TypeErrorMessage)
    else
      var pn := ProcessNodes(nodes.items, uuid);
      if pn.Err? then Err(pn.error)
      else if !edges.JArr? then Err(TypeErrorMessage)
      else
        var pe := ProcessEdges(edges.items, BuildIdMap(nodes.items, uuid));
        if pe.Err? then Err(pe.error)
        else if NeedsHandles(pe.value) || |pe.value| == 0 then
          var auto := AutoEdges(unseen, pn.value);
          if auto.Err? then Err(auto.error) else Ok((pn.value, auto.value))
        else Ok((pn.value, pe.value))
  }

  function Respond(graph: Result<(seq<Value>, seq<Value>)>, parsed: Value): AiResponse {
    if graph.Err? then Failure(FailedMessage)
    else Generated(graph.value.0, graph.value.1, Or(Get(parsed, "explanation"), JStr(DefaultExplanation)))
  }

  /** The decision between the root shape, the wrapped shape and neither. */
  function FromParsed(unseen: Unseen, uuid: nat -> string, parsed: Value): AiResponse {
    if Nullish(parsed) then Failure(FailedMessage)
    else if Truthy(Get(parsed, "nodes")) && Truthy(Get(parsed, "edges")) then
      Respond(ProcessGraph(unseen, uuid, Get(parsed, "nodes"), Get(parsed, "edges")), parsed)
    else
      var w := Get(parsed, "workflow");
      if Truthy(w) && Truthy(Get(w, "nodes")) && Truthy(Get(w, "edges")) then
        Respond(ProcessGraph(unseen, uuid, Get(w, "nodes"), Get(w, "edges")), parsed)
      else Failure(InvalidMessage)
  }

  /** `parseAIWorkflow(aiResponse, isStreaming)`. It never throws. */
  function ParseAiWorkflow(unseen: Unseen, parse: string -> Option<Value>, uuid: nat -> string,
                           response: string, streaming: bool): (r: AiResponse)
    ensures r.Failure? ==> r.error in [StreamingMessage, NoJsonMessage, FailedMessage, InvalidMessage]
  {
    if streaming && Count(response, '{') > Count(response, '}') then Failure(StreamingMessage)
    else
      match JsonSpan(response)
      case None => Failure(NoJsonMessage)
      case Some(text) =>
        match parse(text)
        case None => Failure(FailedMessage)
        case Some(parsed) => FromParsed(unseen, uuid, parsed)
  }

  /**
   * In streaming mode more '{' than '}' yields only the streaming error;
   * otherwise streaming mode behaves exactly like the non-streaming parse.
   */
  lemma StreamingGuard(unseen: Unseen, parse: string -> Option<Value>, uuid: nat -> string, response: string)
    ensures Count(response, '{') > Count(response, '}') ==>
      ParseAiWorkflow(unseen, parse, uuid, response, true) == Failure(StreamingMessage)
    ensures Count(response, '{') <= Count(response, '}') ==>
      ParseAiWorkflow(unseen, parse, uuid, response, true) == ParseAiWorkflow(unseen, parse, uuid, response, false)
  {
  }

  /** Which error is reported, by stage: no span, unparseable span, neither shape. */
  lemma ParseErrors(unseen: Unseen, parse: string -> Option<Value>, uuid: nat -> string, response: string)
    ensures (forall i, j :: 0 <= i < j < |response| && response[i] == '{' ==> response[j] != '}') ==>
      ParseAiWorkflow(unseen, parse, uuid, response, false) == Failure(NoJsonMessage)
    ensures JsonSpan(response).Some? && parse(JsonSpan(response).value).None? ==>
      ParseAiWorkflow(unseen, parse, uuid, response, false) == Failure(FailedMessage)
    ensures JsonSpan(response).Some? && parse(JsonSpan(response).value).Some? ==>
      var p := parse(JsonSpan(response).value).value;
      !Nullish(p) && !(Truthy(Get(p, "nodes")) && Truthy(Get(p, "edges")))
      && !(Truthy(Get(p, "workflow")) && Truthy(Get(Get(p, "workflow"), "nodes")) && Truthy(Get(Get(p, "workflow"), "edges")))
      ==> ParseAiWorkflow(unseen, parse, uuid, response, false) == Failure(InvalidMessage)
  {
    JsonSpanSpec(response);
  }

  /** The root `{nodes, edges}` shape is tried first: a `workflow` key is then ignored. */
  lemma RootShapeFirst(unseen: Unseen, uuid: nat -> string, parsed: Value)
    requires !Nullish(parsed) && Truthy(Get(parsed, "nodes")) && Truthy(Get(parsed, "edges"))
    ensures FromParsed(unseen, uuid, parsed)
         == Respond(ProcessGraph(unseen, uuid, Get(parsed, "nodes"), Get(parsed, "edges")), parsed)
  {
  }

  /**
   * A generated workflow has exactly the input nodes, in order, each
   * rewritten with the i-th fresh id; the explanation is the reply's own or
   * the default text.
   */
  lemma GeneratedNodes(unseen: Unseen, uuid: nat -> string, nodes: Value, edges: Value, parsed: Value)
    requires Respond(ProcessGraph(unseen, uuid, nodes, edges), parsed).Generated?
    ensures nodes.JArr?
    ensures var r := Respond(ProcessGraph(unseen, uuid, nodes, edges), parsed);
      && |r.nodes| == |nodes.items|
      && (forall i :: 0 <= i < |nodes.items| ==> Rewritable(nodes.items[i]) && r.nodes[i] == ProcessNode(nodes.items[i], uuid(i)))
      && r.explanation == Or(Get(parsed, "explanation"), JStr(DefaultExplanation))
  {
  }

  /**
   * The edges are the rewritten input edges when all of them carry both
   * handles and there is at least one; otherwise they are the automatic chain
   * over the rewritten nodes.
   */
  lemma GeneratedEdges(unseen: Unseen, uuid: nat -> string, nodes: Value, edges: Value)
    requires ProcessGraph(unseen, uuid, nodes, edges).Ok?
    ensures nodes.JArr? && edges.JArr?
    ensures var g := ProcessGraph(unseen, uuid, nodes, edges).value;
      var pe := ProcessEdges(edges.items, BuildIdMap(nodes.items, uuid));
      && pe.Ok?
      && (!NeedsHandles(pe.value) && |edges.items| > 0 ==> g.1 == pe.value)
      && (NeedsHandles(pe.value) || |edges.items| == 0 ==> Ok(g.1) == AutoEdges(unseen, g.0))
  {
  }
}
