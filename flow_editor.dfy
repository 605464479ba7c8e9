/**
 * The graph logic of the workflow editor: the connection guard
 * `isValidConnection` with its depth-first `hasCycle` search, `onConnect`,
 * and `smartMerge`, which folds an AI-proposed graph into the canvas without
 * stacking nodes on top of each other.
 *
 * The editor's `nodes` and `edges` state is the class `Editor`; its setters
 * become assignments to those fields.
 */
module FlowEditor {
  import opened Common
  import opened AppGraph
  import opened Registry

  /** A proposed connection: endpoints and the optional handle names. */
  datatype Connection = Connection(source: string, target: string, sourceHandle: Option<string>, targetHandle: Option<string>)

  /** The index of `nodes.find(node => node.id === id)`. */
  function FindNode(nodes: seq<AppNode>, id: string): (r: Option<nat>)
    ensures r.Some? ==> r.value < |nodes| && nodes[r.value].id == id
    ensures r.Some? ==> forall i :: 0 <= i < r.value ==> nodes[i].id != id
    ensures r.None? ==> forall i :: 0 <= i < |nodes| ==> nodes[i].id != id
  {
    FindFirst(nodes, (n: AppNode) => n.id == id)
  }

  /** `task.outputs.find(o => o.name === handle)?.type`. */
  function OutputType(task: Descriptor, handle: Option<string>): (r: Option<ParamType>)
    ensures r.Some? ==> handle.Some? && exists i :: 0 <= i < |task.outputs| && task.outputs[i].name == handle.value && task.outputs[i].paramType == r.value
    ensures r.None? ==> handle.None? || forall i :: 0 <= i < |task.outputs| ==> task.outputs[i].name != handle.value
  {
    if handle.None? then None
    else
      var i := FindFirst(task.outputs, (o: TaskOutput) => o.name == handle.value);
      if i.Some? then Some(task.outputs[i.value].paramType) else None
  }

  /** `task.inputs.find(i => i.name === handle)?.type`. */
  function InputType(task: Descriptor, handle: Option<string>): (r: Option<ParamType>)
    ensures r.Some? ==> handle.Some? && exists i :: 0 <= i < |task.inputs| && task.inputs[i].name == handle.value && task.inputs[i].paramType == r.value
    ensures r.None? ==> handle.None? || forall i :: 0 <= i < |task.inputs| ==> task.inputs[i].name != handle.value
  {
    if handle.None? then None
    else
      var i := FindFirst(task.inputs, (p: TaskParam) => p.name == handle.value);
      if i.Some? then Some(task.inputs[i.value].paramType) else None
  }

  predicate HasEdge(edges: seq<Edge>, a: string, b: string) {
    exists e :: e in edges && e.source == a && e.target == b
  }

  /**
   * `getOutgoers(node, nodes, edges)` of the React Flow library: the nodes,
   * in list order, whose id is the target of an edge leaving `a`; a node
   * with an empty id has none.
   */
  function Outgoers(nodes: seq<AppNode>, edges: seq<Edge>, a: string): (r: seq<AppNode>)
    ensures forall n :: n in r <==> a != "" && n in nodes && HasEdge(edges, a, n.id)
  {
    if a == "" || nodes == [] then []
    else (if HasEdge(edges, a, nodes[0].id) then [nodes[0]] else []) + Outgoers(nodes[1..], edges, a)
  }

  /** One step along an edge between nodes of the canvas. */
  ghost predicate Step(nodes: seq<AppNode>, edges: seq<Edge>, a: string, b: string) {
    a != "" && HasEdge(edges, a, b) && b in IdSet(nodes)
  }

  ghost predicate IsPath(nodes: seq<AppNode>, edges: seq<Edge>, p: seq<string>) {
    |p| >= 2 && forall k :: 0 <= k < |p| - 1 ==> Step(nodes, edges, p[k], p[k + 1])
  }

  /** `b` can be reached from `a` in one or more steps. */
  ghost predicate Reaches(nodes: seq<AppNode>, edges: seq<Edge>, a: string, b: string) {
    exists p :: IsPath(nodes, edges, p) && p[0] == a && p[|p| - 1] == b
  }

  ghost predicate Acyclic(nodes: seq<AppNode>, edges: seq<Edge>) {
    forall a :: !Reaches(nodes, edges, a, a)
  }

  lemma OutgoerIsStep(nodes: seq<AppNode>, edges: seq<Edge>, a: string, n: AppNode)
    requires n in Outgoers(nodes, edges, a)
    ensures Step(nodes, edges, a, n.id)
  {
    var i :| 0 <= i < |nodes| && nodes[i] == n;
  }

  /** The ids in `added` lead only to ids in `seen`, and none of them to `source`. */
  ghost predicate Closed(nodes: seq<AppNode>, edges: seq<Edge>, source: string, added: set<string>, seen: set<string>) {
    forall x, n :: x in added && n in Outgoers(nodes, edges, x) ==> n.id != source && n.id in seen
  }

  /** The shared `visited` set of one `hasCycle` search for a fixed connection source. */
  class CycleSearch {
    const nodes: seq<AppNode>
    const edges: seq<Edge>
    const source: string
    var visited: set<string>

    constructor(nodes: seq<AppNode>, edges: seq<Edge>, source: string)
      ensures this.nodes == nodes && this.edges == edges && this.source == source && visited == {}
    {
      this.nodes := nodes;
      this.edges := edges;
      this.source := source;
      visited := {};
    }

    /**
     * `hasCycle(node, visited)`: whether `source` is reachable from node `a`.
     * A `false` answer leaves every newly visited id with all its outgoers
     * visited and none of them the source.
     */
    method HasCycle(a: string) returns (found: bool)
      requires a in IdSet(nodes)
      modifies this
      ensures old(visited) <= visited
      ensures found ==> Reaches(nodes, edges, a, source)
      ensures !found ==> a in visited && Closed(nodes, edges, source, visited - old(visited), visited)
      decreases IdSet(nodes) - visited
    {
      if a in visited {
        return false;
      }
      visited := visited + {a};
      var outs := Outgoers(nodes, edges, a);
      var i := 0;
      while i < |outs|
        invariant 0 <= i <= |outs|
        invariant old(visited) + {a} <= visited
        invariant forall k :: 0 <= k < i ==> outs[k].id != source && outs[k].id in visited
        invariant Closed(nodes, edges, source, visited - (old(visited) + {a}), visited)
      {
        var b := outs[i].id;
        OutgoerIsStep(nodes, edges, a, outs[i]);
        if b == source {
          assert IsPath(nodes, edges, [a, b]);
          return true;
        }
        ghost var mid := visited;
        var f := HasCycle(b);
        if f {
          ExtendPath(nodes, edges, a, b, source);
          return true;
        }
        assert visited - (old(visited) + {a}) == (mid - (old(visited) + {a})) + (visited - mid);
        i := i + 1;
      }
      return false;
    }
  }

  lemma ExtendPath(nodes: seq<AppNode>, edges: seq<Edge>, a: string, b: string, c: string)
    requires Step(nodes, edges, a, b) && Reaches(nodes, edges, b, c)
    ensures Reaches(nodes, edges, a, c)
  {
    var p :| IsPath(nodes, edges, p) && p[0] == b && p[|p| - 1] == c;
    var q := [a] + p;
    assert forall k :: 1 <= k < |q| ==> q[k] == p[k - 1];
    assert IsPath(nodes, edges, q);
  }

  /** A search that visits `a` and closes over everything it visited finds no path from `a` to `source`. */
  lemma {:induction false} ClosedHasNoPath(nodes: seq<AppNode>, edges: seq<Edge>, source: string, seen: set<string>, p: seq<string>, k: nat)
    requires Closed(nodes, edges, source, seen, seen)
    requires IsPath(nodes, edges, p) && p[0] in seen && 0 < k < |p|
    ensures p[k] in seen && p[k] != source
  {
    if k > 1 {
      ClosedHasNoPath(nodes, edges, source, seen, p, k - 1);
    }
    var x := p[k - 1];
    assert Step(nodes, edges, x, p[k]);
    var i :| 0 <= i < |nodes| && nodes[i].id == p[k];
    assert nodes[i] in Outgoers(nodes, edges, x);
  }

  /** `!hasCycle(targetNode)`: `source` is not reachable from `target`. */
  method NoCycle(nodes: seq<AppNode>, edges: seq<Edge>, source: string, target: string) returns (ok: bool)
    requires target in IdSet(nodes)
    ensures ok <==> !Reaches(nodes, edges, target, source)
  {
    var search := new CycleSearch(nodes, edges, source);
    var found := search.HasCycle(target);
    if !found {
      forall p | IsPath(nodes, edges, p) && p[0] == target
        ensures p[|p| - 1] != source
      {
        ClosedHasNoPath(nodes, edges, source, search.visited, p, |p| - 1);
      }
    }
    ok := !found;
  }

  /**
   * What `isValidConnection(connection)` returns, or the TypeError it throws
   * when an endpoint's task type is not in the registry.
   */
  ghost function ConnectionVerdict(unseen: Unseen, nodes: seq<AppNode>, edges: seq<Edge>, c: Connection): Result<bool> {
    if c.source == c.target then Ok(false)
    else
      var s := FindNode(nodes, c.source);
      var t := FindNode(nodes, c.target);
      if s.None? || t.None? then Ok(false)
      else
        var sourceTask := TaskByName(unseen, nodes[s.value].data.taskType);
        var targetTask := TaskByName(unseen, nodes[t.value].data.taskType);
        if sourceTask.None? || targetTask.None? then Err(TypeErrorMessage)
        else if InputType(targetTask.value, c.targetHandle) != OutputType(sourceTask.value, c.sourceHandle) then Ok(false)
        else Ok(!Reaches(nodes, edges, c.target, c.source))
  }

  /** `addEdge({...connection, animated: true}, edges)`'s new edge, with the library's generated id. */
  function ConnectionEdge(c: Connection): (e: Edge)
    ensures e.source == c.source && e.target == c.target && e.animated
    ensures e.sourceHandle == c.sourceHandle && e.targetHandle == c.targetHandle
  {
    var sh := if c.sourceHandle.Some? then c.sourceHandle.value else "";
    var th := if c.targetHandle.Some? then c.targetHandle.value else "";
    Edge("xy-edge__" + c.source + sh + "-" + c.target + th, c.source, c.target, c.sourceHandle, c.targetHandle, true)
  }

  /** The library's `connectionExists`: an edge with the same endpoints and handles is already present. */
  predicate ConnectionExists(edges: seq<Edge>, c: Connection) {
    exists e :: e in edges && e.source == c.source && e.target == c.target
      && e.sourceHandle == c.sourceHandle && e.targetHandle == c.targetHandle
  }

  /** The edge list after `onConnect`. */
  function Connected(edges: seq<Edge>, c: Connection): (r: seq<Edge>)
    ensures ConnectionExists(edges, c) ==> r == edges
    ensures !ConnectionExists(edges, c) ==> r == edges + [ConnectionEdge(c)]
  {
    if ConnectionExists(edges, c) then edges else edges + [ConnectionEdge(c)]
  }

  /** A handle name the source treats as present: a non-empty string. */
  predicate Named(h: Option<string>) {
    h.Some? && h.value != ""
  }

  /** `{...nodeInputs, [handle]: ""}`: spreading absent inputs gives an empty object. */
  function ResetOne(inputs: Option<map<string, string>>, handle: string): (r: map<string, string>)
    ensures handle in r && r[handle] == ""
    ensures forall k :: k != handle ==> (k in r <==> inputs.Some? && k in inputs.value)
    ensures forall k :: k != handle && k in r ==> r[k] == inputs.value[k]
  {
    (if inputs.Some? then inputs.value else map[])[handle := ""]
  }

  /**
   * The node list after `onConnect`: with a target handle and a target node,
   * `updateNodeData` gives every node with the target id the first such
   * node's inputs with that handle reset to "".
   */
  function ResetTargetInput(nodes: seq<AppNode>, c: Connection): (r: seq<AppNode>)
    ensures |r| == |nodes|
  {
    if !Named(c.targetHandle) then nodes
    else
      var t := FindNode(nodes, c.target);
      if t.None? then nodes
      else
        var inputs := ResetOne(nodes[t.value].data.inputs, c.targetHandle.value);
        seq(|nodes|, i requires 0 <= i < |nodes| =>
          if nodes[i].id == c.target then nodes[i].(data := nodes[i].data.(inputs := Some(inputs))) else nodes[i])
  }

  /** Only the connected input of the target is reset; other inputs and other nodes are unchanged. */
  lemma ResetTargetInputSpec(nodes: seq<AppNode>, c: Connection, i: nat)
    requires i < |nodes|
    ensures var r := ResetTargetInput(nodes, c)[i];
      && r.id == nodes[i].id && r.position == nodes[i].position && r.data.taskType == nodes[i].data.taskType
      && (nodes[i].id != c.target || !Named(c.targetHandle) || FindNode(nodes, c.target).None? ==> r == nodes[i])
      && (nodes[i].id == c.target && Named(c.targetHandle) ==>
            var first := nodes[FindNode(nodes, c.target).value];
            && r.data.inputs.Some?
            && r.data.inputs.value[c.targetHandle.value] == ""
            && forall k :: k != c.targetHandle.value ==>
                 (k in r.data.inputs.value <==> first.data.inputs.Some? && k in first.data.inputs.value)
                 && (k in r.data.inputs.value ==> r.data.inputs.value[k] == first.data.inputs.value[k]))
  {
    if nodes[i].id == c.target && Named(c.targetHandle) {
      assert FindNode(nodes, c.target).Some?;
    }
  }

  /** An accepted connection keeps an acyclic graph acyclic. */
  lemma AcceptedKeepsAcyclic(unseen: Unseen, nodes: seq<AppNode>, edges: seq<Edge>, c: Connection)
    requires Acyclic(nodes, edges)
    requires ConnectionVerdict(unseen, nodes, edges, c) == Ok(true)
    ensures Acyclic(nodes, Connected(edges, c))
  {
    var next := Connected(edges, c);
    forall a | Reaches(nodes, next, a, a)
      ensures false
    {
      var p :| IsPath(nodes, next, p) && p[0] == a && p[|p| - 1] == a;
      if IsPath(nodes, edges, p) {
        assert Reaches(nodes, edges, a, a);
      } else {
        CycleGivesOldPath(nodes, edges, c, p);
      }
    }
  }

  /** A step after the connection is a step before it or the new edge itself. */
  lemma StepAfterConnect(nodes: seq<AppNode>, edges: seq<Edge>, c: Connection, x: string, y: string)
    requires Step(nodes, Connected(edges, c), x, y)
    ensures Step(nodes, edges, x, y) || (x == c.source && y == c.target)
  {
    var e :| e in Connected(edges, c) && e.source == x && e.target == y;
    if e !in edges {
      assert e == ConnectionEdge(c);
    }
  }

  /** The first step of `p` that is not a step of `edges`. */
  lemma FirstBreak(nodes: seq<AppNode>, edges: seq<Edge>, p: seq<string>) returns (k: nat)
    requires exists m :: 0 <= m < |p| - 1 && !Step(nodes, edges, p[m], p[m + 1])
    ensures k < |p| - 1 && !Step(nodes, edges, p[k], p[k + 1])
    ensures forall m :: 0 <= m < k ==> Step(nodes, edges, p[m], p[m + 1])
  {
    k := 0;
    while Step(nodes, edges, p[k], p[k + 1])
      invariant k < |p| - 1
      invariant forall m :: 0 <= m < k ==> Step(nodes, edges, p[m], p[m + 1])
      decreases |p| - k
    {
      k := k + 1;
    }
  }

  /** The last step of `p` that is not a step of `edges`. */
  lemma LastBreak(nodes: seq<AppNode>, edges: seq<Edge>, p: seq<string>) returns (j: nat)
    requires exists m :: 0 <= m < |p| - 1 && !Step(nodes, edges, p[m], p[m + 1])
    ensures j < |p| - 1 && !Step(nodes, edges, p[j], p[j + 1])
    ensures forall m :: j < m < |p| - 1 ==> Step(nodes, edges, p[m], p[m + 1])
  {
    j := |p| - 2;
    while Step(nodes, edges, p[j], p[j + 1])
      invariant 0 <= j < |p| - 1
      invariant forall m :: j < m < |p| - 1 ==> Step(nodes, edges, p[m], p[m + 1])
      decreases j
    {
      j := j - 1;
    }
  }

  /**
   * A cycle that uses the new edge: from the edge's target, follow the cycle
   * after its last use back round to its first use, which ends at the edge's
   * source without using the new edge.
   */
  lemma CycleGivesOldPath(nodes: seq<AppNode>, edges: seq<Edge>, c: Connection, p: seq<string>)
    requires c.source != c.target
    requires IsPath(nodes, Connected(edges, c), p) && p[0] == p[|p| - 1]
    requires !IsPath(nodes, edges, p)
    ensures Reaches(nodes, edges, c.target, c.source)
  {
    var k := FirstBreak(nodes, edges, p);
    var j := LastBreak(nodes, edges, p);
    StepAfterConnect(nodes, edges, c, p[k], p[k + 1]);
    StepAfterConnect(nodes, edges, c, p[j], p[j + 1]);
    var w := RoundTrip(nodes, edges, p, k, j);
    assert w[0] == c.target && w[|w| - 1] == c.source;
  }

  /**
   * On a closed walk whose steps before `k` and after `j` are all steps,
   * going on from `j + 1` round to `k` is a path.
   */
  lemma RoundTrip(nodes: seq<AppNode>, edges: seq<Edge>, p: seq<string>, k: nat, j: nat) returns (w: seq<string>)
    requires k <= j < |p| - 1 && p[0] == p[|p| - 1] && p[k] != p[j + 1]
    requires forall m :: 0 <= m < k ==> Step(nodes, edges, p[m], p[m + 1])
    requires forall m :: j < m < |p| - 1 ==> Step(nodes, edges, p[m], p[m + 1])
    ensures IsPath(nodes, edges, w) && w[0] == p[j + 1] && w[|w| - 1] == p[k]
  {
    var tail := |p| - j - 1;
    w := p[j + 1..] + p[1..k + 1];
    assert |w| == tail + k;
    assert w[0] == p[j + 1];
    assert w[|w| - 1] == p[k];
    forall m | 0 <= m < |w| - 1
      ensures Step(nodes, edges, w[m], w[m + 1])
    {
      if m + 1 < tail {
        assert w[m] == p[j + 1 + m] && w[m + 1] == p[j + 2 + m];
      } else if m + 1 == tail {
        assert w[m] == p[0] && w[m + 1] == p[1];
      } else {
        assert w[m] == p[m - tail + 1] && w[m + 1] == p[m - tail + 2];
      }
    }
  }

  /** `isValidConnection` rejects a connection from a node to itself. */
  lemma SelfLoopRejected(unseen: Unseen, nodes: seq<AppNode>, edges: seq<Edge>, c: Connection)
    requires c.source == c.target
    ensures ConnectionVerdict(unseen, nodes, edges, c) == Ok(false)
  {
  }

  /** A connection with an endpoint that is not a current node is rejected. */
  lemma MissingEndpointRejected(unseen: Unseen, nodes: seq<AppNode>, edges: seq<Edge>, c: Connection)
    requires c.source !in IdSet(nodes) || c.target !in IdSet(nodes)
    ensures ConnectionVerdict(unseen, nodes, edges, c) == Ok(false)
  {
  }

  /**
   * Between two existing nodes of registered task types, the connection is
   * accepted iff the named output and input have the same declared type (an
   * unknown handle name counting as no type) and the source is not reachable
   * from the target.
   */
  lemma ConnectionAccepted(unseen: Unseen, nodes: seq<AppNode>, edges: seq<Edge>, c: Connection, i: nat, j: nat)
    requires c.source != c.target
    requires i < |nodes| && nodes[i].id == c.source && (forall k :: 0 <= k < i ==> nodes[k].id != c.source)
    requires j < |nodes| && nodes[j].id == c.target && (forall k :: 0 <= k < j ==> nodes[k].id != c.target)
    requires TaskByName(unseen, nodes[i].data.taskType).Some? && TaskByName(unseen, nodes[j].data.taskType).Some?
    ensures var output := OutputType(TaskByName(unseen, nodes[i].data.taskType).value, c.sourceHandle);
      var input := InputType(TaskByName(unseen, nodes[j].data.taskType).value, c.targetHandle);
      ConnectionVerdict(unseen, nodes, edges, c) == Ok(input == output && !Reaches(nodes, edges, c.target, c.source))
  {
    assert FindNode(nodes, c.source) == Some(i);
    assert FindNode(nodes, c.target) == Some(j);
  }

  /** An endpoint whose task type is not in the registry makes the guard throw. */
  lemma UnknownTaskThrows(unseen: Unseen, nodes: seq<AppNode>, edges: seq<Edge>, c: Connection, i: nat)
    requires c.source != c.target && c.target in IdSet(nodes)
    requires i < |nodes| && nodes[i].id == c.source && (forall k :: 0 <= k < i ==> nodes[k].id != c.source)
    requires ParseType(nodes[i].data.taskType).None?
    ensures ConnectionVerdict(unseen, nodes, edges, c) == Err(TypeErrorMessage)
  {
    assert FindNode(nodes, c.source) == Some(i);
    var j :| 0 <= j < |nodes| && nodes[j].id == c.target;
    assert FindNode(nodes, c.target).Some?;
  }

  const WebsiteUrlKey: string := "Website Url"
  const TargetUrlKey: string := "Target URL"
  /** How far `place` moves right past an occupied slot. */
  const PlaceStep: int := 320
  /** The x spacing of incoming nodes that have no position. */
  const IndexSpacing: int := 420

  /** `n.data.inputs?.[key]`. */
  function InputOf(n: AppNode, key: string): (r: Option<string>)
    ensures r.Some? <==> n.data.inputs.Some? && key in n.data.inputs.value
  {
    if n.data.inputs.Some? && key in n.data.inputs.value then Some(n.data.inputs.value[key]) else None
  }

  /** The current node's position as a `used` key: a missing position counts as (0, 0). */
  function Seat(n: AppNode): Pos {
    if n.position.Some? then n.position.value else Pos(0, 0)
  }

  function Seats(nodes: seq<AppNode>): set<Pos> {
    set i | 0 <= i < |nodes| :: Seat(nodes[i])
  }

  /** What `smartMerge` carries over from the current canvas. */
  datatype Preserved = Preserved(siteUrl: Option<string>, webhookUrl: Option<string>, browserPos: Option<Pos>, webhookPos: Option<Pos>)

  /** `originalBrowser`: the first current node with a non-empty "Website Url" input, of any task type. */
  function OriginalBrowser(nodes: seq<AppNode>): (r: Option<nat>)
    ensures r.Some? ==> r.value < |nodes| && Named(InputOf(nodes[r.value], WebsiteUrlKey))
    ensures r.Some? ==> forall i :: 0 <= i < r.value ==> !Named(InputOf(nodes[i], WebsiteUrlKey))
    ensures r.None? ==> forall i :: 0 <= i < |nodes| ==> !Named(InputOf(nodes[i], WebsiteUrlKey))
  {
    FindFirst(nodes, (n: AppNode) => Named(InputOf(n, WebsiteUrlKey)))
  }

  /** `originalWebhook`: the first current webhook node. */
  function OriginalWebhook(nodes: seq<AppNode>): (r: Option<nat>)
    ensures r.Some? ==> r.value < |nodes| && nodes[r.value].data.taskType == TypeName(DeliverViaWebhook)
    ensures r.Some? ==> forall i :: 0 <= i < r.value ==> nodes[i].data.taskType != TypeName(DeliverViaWebhook)
    ensures r.None? ==> forall i :: 0 <= i < |nodes| ==> nodes[i].data.taskType != TypeName(DeliverViaWebhook)
  {
    FindFirst(nodes, (n: AppNode) => n.data.taskType == TypeName(DeliverViaWebhook))
  }

  function Preserve(nodes: seq<AppNode>): (r: Preserved)
    ensures var b := OriginalBrowser(nodes);
      && (b.None? ==> r.siteUrl.None? && r.browserPos.None?)
      && (b.Some? ==> r.siteUrl == InputOf(nodes[b.value], WebsiteUrlKey) && r.browserPos == nodes[b.value].position)
    ensures var w := OriginalWebhook(nodes);
      && (w.None? ==> r.webhookUrl.None? && r.webhookPos.None?)
      && (w.Some? ==> r.webhookUrl == InputOf(nodes[w.value], TargetUrlKey) && r.webhookPos == nodes[w.value].position)
  {
    var b := OriginalBrowser(nodes);
    var w := OriginalWebhook(nodes);
    Preserved(
      if b.Some? then InputOf(nodes[b.value], WebsiteUrlKey) else None,
      if w.Some? then InputOf(nodes[w.value], TargetUrlKey) else None,
      if b.Some? then nodes[b.value].position else None,
      if w.Some? then nodes[w.value].position else None)
  }

  predicate IsBrowser(n: AppNode) {
    n.data.taskType == TypeName(LaunchBrowser)
  }

  predicate IsWebhook(n: AppNode) {
    n.data.taskType == TypeName(DeliverViaWebhook)
  }

  /** The incoming node's data after URL preservation. */
  function MergedData(n: AppNode, keep: Preserved): NodeData {
    if n.data.inputs.None? then n.data
    else
      var inputs := n.data.inputs.value;
      var withSite := if IsBrowser(n) && Named(keep.siteUrl) then inputs[WebsiteUrlKey := keep.siteUrl.value] else inputs;
      var withHook := if IsWebhook(n) && Named(keep.webhookUrl) then withSite[TargetUrlKey := keep.webhookUrl.value] else withSite;
      n.data.(inputs := Some(withHook))
  }

  /**
   * Browser nodes with inputs receive the preserved site URL and webhook
   * nodes the preserved target URL; every other input, and the task type,
   * stay as they came.
   */
  lemma MergedDataSpec(n: AppNode, keep: Preserved, k: string)
    ensures MergedData(n, keep).taskType == n.data.taskType
    ensures MergedData(n, keep).inputs.Some? <==> n.data.inputs.Some?
    ensures n.data.inputs.Some? && IsBrowser(n) && Named(keep.siteUrl) ==>
      MergedData(n, keep).inputs.value[WebsiteUrlKey] == keep.siteUrl.value
    ensures n.data.inputs.Some? && IsWebhook(n) && Named(keep.webhookUrl) ==>
      MergedData(n, keep).inputs.value[TargetUrlKey] == keep.webhookUrl.value
    ensures (n.data.inputs.Some? && (k != WebsiteUrlKey || !IsBrowser(n) || !Named(keep.siteUrl))
             && (k != TargetUrlKey || !IsWebhook(n) || !Named(keep.webhookUrl))) ==>
      (k in MergedData(n, keep).inputs.value <==> k in n.data.inputs.value)
      && (k in n.data.inputs.value ==> MergedData(n, keep).inputs.value[k] == n.data.inputs.value[k])
  {
    assert WebsiteUrlKey[0] != TargetUrlKey[0];
    assert TypeName(LaunchBrowser)[0] != TypeName(DeliverViaWebhook)[0];
  }

  /** Where `place` starts for the incoming node at `index`: its own position, or the preserved one for a browser or webhook node. */
  function Preferred(n: AppNode, index: nat, keep: Preserved): Pos {
    var own := n.position;
    var browser := if IsBrowser(n) && keep.browserPos.Some? then keep.browserPos else own;
    var hook := if IsWebhook(n) && keep.webhookPos.Some? then keep.webhookPos else browser;
    if hook.Some? then hook.value else Pos(index * IndexSpacing, 0)
  }

  /** The used slots on the row of `p`, at or right of it. */
  function RightOf(used: set<Pos>, p: Pos): set<Pos> {
    set q | q in used && q.y == p.y && q.x >= p.x
  }

  lemma RowShrinks(used: set<Pos>, p: Pos)
    requires p in used
    ensures RightOf(used, Pos(p.x + PlaceStep, p.y)) < RightOf(used, p)
  {
    assert p in RightOf(used, p) && p !in RightOf(used, Pos(p.x + PlaceStep, p.y));
  }

  /** The first slot at or right of `p`, in steps of 320, that is not used. */
  function FirstFree(used: set<Pos>, p: Pos): Pos
    decreases RightOf(used, p)
  {
    if p !in used then p
    else
      RowShrinks(used, p);
      FirstFree(used, Pos(p.x + PlaceStep, p.y))
  }

  /** The slot `place` settles on is free, on the same row, a whole number of steps right, and every slot it skipped is used. */
  lemma {:induction false} FirstFreeSpec(used: set<Pos>, p: Pos)
    ensures var r := FirstFree(used, p);
      && r !in used && r.y == p.y && r.x >= p.x && (r.x - p.x) % PlaceStep == 0
      && forall k :: 0 <= k < (r.x - p.x) / PlaceStep ==> Pos(p.x + k * PlaceStep, p.y) in used
    decreases RightOf(used, p)
  {
    if p in used {
      var next := Pos(p.x + PlaceStep, p.y);
      RowShrinks(used, p);
      FirstFreeSpec(used, next);
      var r := FirstFree(used, next);
      forall k | 0 <= k < (r.x - p.x) / PlaceStep
        ensures Pos(p.x + k * PlaceStep, p.y) in used
      {
        if k > 0 {
          assert (r.x - p.x) / PlaceStep == (r.x - next.x) / PlaceStep + 1;
          assert Pos(next.x + (k - 1) * PlaceStep, p.y) == Pos(p.x + k * PlaceStep, p.y);
        }
      }
    }
  }

  /** The `used` set of one `smartMerge` call and its `place` helper. */
  class Placer {
    var used: set<Pos>

    constructor(seed: set<Pos>)
      ensures used == seed
    {
      used := seed;
    }

    /** `place(pos, index)` from its starting slot: moves right while the slot is used, then claims it. */
    method Place(start: Pos) returns (p: Pos)
      modifies this
      ensures p == FirstFree(old(used), start)
      ensures used == old(used) + {p}
    {
      var taken := used;
      var x := start.x;
      while Pos(x, start.y) in taken
        invariant taken == used && FirstFree(taken, Pos(x, start.y)) == FirstFree(taken, start)
        decreases RightOf(taken, Pos(x, start.y))
      {
        RowShrinks(taken, Pos(x, start.y));
        x := x + PlaceStep;
      }
      p := Pos(x, start.y);
      used := taken + {p};
    }
  }

  /** The graph the assistant proposes; either part may be missing. */
  datatype Incoming = Incoming(nodes: Option<seq<AppNode>>, edges: Option<seq<Edge>>)

  /** `!incoming?.nodes?.length`. */
  predicate NothingIncoming(incoming: Option<Incoming>) {
    incoming.None? || incoming.value.nodes.None? || incoming.value.nodes.value == []
  }

  /** The merged edges: the incoming ones when there are any, else the current ones. */
  function MergedEdges(incoming: Incoming, edges: seq<Edge>): seq<Edge> {
    if incoming.edges.Some? && |incoming.edges.value| > 0 then incoming.edges.value else edges
  }

  /** The editor's graph state. */
  class Editor {
    var nodes: seq<AppNode>
    var edges: seq<Edge>

    constructor(nodes: seq<AppNode>, edges: seq<Edge>)
      ensures this.nodes == nodes && this.edges == edges
    {
      this.nodes := nodes;
      this.edges := edges;
    }

    /** `isValidConnection(connection)`. */
    method IsValidConnection(unseen: Unseen, c: Connection) returns (r: Result<bool>)
      ensures r == ConnectionVerdict(unseen, nodes, edges, c)
    {
      if c.source == c.target {
        return Ok(false);
      }
      var s := FindNode(nodes, c.source);
      var t := FindNode(nodes, c.target);
      if s.None? || t.None? {
        return Ok(false);
      }
      var sourceTask := TaskByName(unseen, nodes[s.value].data.taskType);
      var targetTask := TaskByName(unseen, nodes[t.value].data.taskType);
      if sourceTask.None? || targetTask.None? {
        return Err(TypeErrorMessage);
      }
      if InputType(targetTask.value, c.targetHandle) != OutputType(sourceTask.value, c.sourceHandle) {
        return Ok(false);
      }
      var targetNode := nodes[t.value];
      assert targetNode.id in IdSet(nodes);
      var ok := NoCycle(nodes, edges, c.source, targetNode.id);
      return Ok(ok);
    }

    /** `onConnect(connection)`: adds the animated edge and resets the connected input. */
    method OnConnect(c: Connection)
      modifies this
      ensures edges == Connected(old(edges), c)
      ensures nodes == ResetTargetInput(old(nodes), c)
    {
      edges := Connected(edges, c);
      nodes := ResetTargetInput(nodes, c);
    }

    /**
     * `smartMerge(incoming)`: the incoming nodes with preserved URLs and
     * de-overlapped positions, and the edges to show. The current state is
     * not changed.
     */
    method SmartMerge(incoming: Option<Incoming>) returns (outNodes: seq<AppNode>, outEdges: seq<Edge>)
      ensures NothingIncoming(incoming) ==> outNodes == nodes && outEdges == edges
      ensures !NothingIncoming(incoming) ==> outEdges == MergedEdges(incoming.value, edges)
      ensures !NothingIncoming(incoming) ==>
        var inc := incoming.value.nodes.value;
        && |outNodes| == |inc|
        && forall i :: 0 <= i < |inc| ==>
             && outNodes[i].id == inc[i].id
             && outNodes[i].data == MergedData(inc[i], Preserve(nodes))
             && outNodes[i].position.Some?
             && outNodes[i].position.value !in Seats(nodes)
             && var start := Preferred(inc[i], i, Preserve(nodes));
                outNodes[i].position.value.y == start.y && outNodes[i].position.value.x >= start.x
                && (outNodes[i].position.value.x - start.x) % PlaceStep == 0
      ensures !NothingIncoming(incoming) ==>
        forall i, j :: 0 <= i < j < |outNodes| ==> outNodes[i].position != outNodes[j].position
    {
      if NothingIncoming(incoming) {
        return nodes, edges;
      }
      var inc := incoming.value.nodes.value;
      var keep := Preserve(nodes);
      var placer := new Placer(Seats(nodes));
      outNodes := [];
      var i := 0;
      while i < |inc|
        invariant 0 <= i <= |inc| && |outNodes| == i
        invariant Seats(nodes) <= placer.used
        invariant forall k :: 0 <= k < i ==>
          && outNodes[k].id == inc[k].id
          && outNodes[k].data == MergedData(inc[k], keep)
          && outNodes[k].position.Some?
          && outNodes[k].position.value in placer.used
          && outNodes[k].position.value !in Seats(nodes)
          && var start := Preferred(inc[k], k, keep);
             outNodes[k].position.value.y == start.y && outNodes[k].position.value.x >= start.x
             && (outNodes[k].position.value.x - start.x) % PlaceStep == 0
        invariant forall a, b :: 0 <= a < b < i ==> outNodes[a].position != outNodes[b].position
      {
        var start := Preferred(inc[i], i, keep);
        FirstFreeSpec(placer.used, start);
        var p := placer.Place(start);
        outNodes := outNodes + [AppNode(inc[i].id, MergedData(inc[i], keep), Some(p))];
        i := i + 1;
      }
      outEdges := MergedEdges(incoming.value, edges);
    }
  }
}
