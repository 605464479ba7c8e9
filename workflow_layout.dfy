/**
 * `optimizeWorkflowLayout`: repositions the nodes of a workflow. Without an
 * entry-point node the nodes are laid out on one row; otherwise a depth-first
 * walk from the first entry node places every reachable node (children one
 * level lower, siblings side by side) and the nodes it did not reach are put
 * on a row of their own below. The edges are returned unchanged.
 */
module WorkflowLayout {
  import opened Common
  import opened AppGraph
  import opened Registry

  const LevelGap: int := 300
  const SiblingGap: int := 400
  const LeftoverRow: int := 600

  /** `task && task.isEntryPoint` for `task = TaskRegistry[node.data.type]`. */
  predicate IsEntry(unseen: Unseen, node: AppNode) {
    var task := TaskByName(unseen, node.data.taskType);
    task.Some? && task.value.isEntryPoint
  }

  /** The index of `nodes.find(isEntry)`. */
  function FirstEntry(unseen: Unseen, nodes: seq<AppNode>): (r: Option<nat>)
    ensures r.Some? ==> r.value < |nodes| && IsEntry(unseen, nodes[r.value])
    ensures r.Some? ==> forall i :: 0 <= i < r.value ==> !IsEntry(unseen, nodes[i])
    ensures r.None? ==> forall i :: 0 <= i < |nodes| ==> !IsEntry(unseen, nodes[i])
  {
    FindFirst(nodes, n => IsEntry(unseen, n))
  }

  /** `edges.filter(edge => edge.source === nodeId)`. */
  function ChildEdges(edges: seq<Edge>, nodeId: string): (r: seq<Edge>)
    ensures forall e :: e in r <==> e in edges && e.source == nodeId
  {
    if edges == [] then []
    else (if edges[0].source == nodeId then [edges[0]] else []) + ChildEdges(edges[1..], nodeId)
  }

  /** The nodes of `nodes` whose id the walk did not reach, in list order. */
  function Unreached(nodes: seq<AppNode>, reached: set<string>): (r: seq<AppNode>)
    ensures forall x :: x in r ==> x in nodes && x.id !in reached
  {
    if nodes == [] then []
    else
      var last := nodes[|nodes| - 1];
      Unreached(nodes[..|nodes| - 1], reached) + (if last.id in reached then [] else [last])
  }

  /** The leftover row: the k-th unreached node at (400k, 600). */
  function LeftoverPlacement(nodes: seq<AppNode>, reached: set<string>): (r: seq<AppNode>)
    ensures var u := Unreached(nodes, reached);
      |r| == |u| && forall k :: 0 <= k < |u| ==> r[k] == MoveTo(u[k], Pos(SiblingGap * k, LeftoverRow))
  {
    var u := Unreached(nodes, reached);
    seq(|u|, k requires 0 <= k < |u| => MoveTo(u[k], Pos(SiblingGap * k, LeftoverRow)))
  }

  /** The elements of `s` that are in `v`, in order. */
  function Within(s: seq<string>, v: set<string>): seq<string> {
    if s == [] then [] else Within(s[..|s| - 1], v) + (if s[|s| - 1] in v then [s[|s| - 1]] else [])
  }

  /** The elements of `s` that are not in `v`, in order. */
  function Without(s: seq<string>, v: set<string>): seq<string> {
    if s == [] then [] else Without(s[..|s| - 1], v) + (if s[|s| - 1] in v then [] else [s[|s| - 1]])
  }

  lemma {:induction false} WithinMembers(s: seq<string>, v: set<string>, x: string)
    ensures x in Within(s, v) <==> x in s && x in v
  {
    if s != [] {
      var front := s[..|s| - 1];
      WithinMembers(front, v, x);
      assert s == front + [s[|s| - 1]];
    }
  }

  /** Splitting a sequence by a set keeps every occurrence on exactly one side. */
  lemma {:induction false} SplitBySet(s: seq<string>, v: set<string>)
    ensures multiset(Within(s, v)) + multiset(Without(s, v)) == multiset(s)
  {
    if s != [] {
      var front := s[..|s| - 1];
      var last := s[|s| - 1];
      SplitBySet(front, v);
      assert s == front + [last];
      assert multiset(s) == multiset(front) + multiset{last};
    }
  }

  lemma {:induction false} WithinDistinct(s: seq<string>, v: set<string>)
    requires Distinct(s)
    ensures Distinct(Within(s, v))
  {
    if s != [] {
      var front := s[..|s| - 1];
      var last := s[|s| - 1];
      assert Distinct(front) by {
        assert forall a :: 0 <= a < |front| ==> front[a] == s[a];
      }
      WithinDistinct(front, v);
      assert last !in front by {
        forall a | 0 <= a < |front| ensures front[a] != last {
          assert front[a] == s[a];
        }
      }
      WithinMembers(front, v, last);
      DistinctAppend(Within(front, v), last);
    }
  }

  lemma UnreachedIds(nodes: seq<AppNode>, reached: set<string>)
    ensures Ids(Unreached(nodes, reached)) == Without(Ids(nodes), reached)
    decreases |nodes|
  {
    if nodes != [] {
      var front := nodes[..|nodes| - 1];
      var last := nodes[|nodes| - 1];
      UnreachedIds(front, reached);
      assert Ids(nodes)[..|nodes| - 1] == Ids(front);
      IdsAppend(Unreached(front, reached), last);
    }
  }

  /** Appending one node to the input appends at most one node to the leftover row. */
  lemma LeftoverStep(nodes: seq<AppNode>, i: nat, reached: set<string>)
    requires i < |nodes|
    ensures var before := Unreached(nodes[..i], reached);
      LeftoverPlacement(nodes[..i + 1], reached) == LeftoverPlacement(nodes[..i], reached) +
        (if nodes[i].id in reached then [] else [MoveTo(nodes[i], Pos(SiblingGap * |before|, LeftoverRow))])
  {
    assert nodes[..i + 1][..i] == nodes[..i];
  }

  /**
   * The state of one layout pass: the id-to-node map, the edges, the ids
   * visited so far and the nodes placed so far, in placement order.
   */
  class LayoutPass {
    const nodeMap: map<string, AppNode>
    const edges: seq<Edge>
    var visited: set<string>
    var placed: seq<AppNode>

    /** Every visited id is placed exactly once, as its mapped node with a position. */
    ghost predicate Valid()
      reads this
    {
      && (forall k :: k in nodeMap ==> nodeMap[k].id == k)
      && visited <= nodeMap.Keys
      && Distinct(Ids(placed))
      && (forall v :: v in visited <==> v in Ids(placed))
      && (forall k :: 0 <= k < |placed| ==>
            placed[k].id in nodeMap && placed[k].data == nodeMap[placed[k].id].data && placed[k].position.Some?)
    }

    constructor(nodes: seq<AppNode>, edges: seq<Edge>)
      ensures nodeMap == NodeMap(nodes) && this.edges == edges
      ensures visited == {} && placed == []
      ensures Valid()
    {
      nodeMap := NodeMap(nodes);
      this.edges := edges;
      visited := {};
      placed := [];
    }

    /**
     * `positionNodeAndChildren(nodeId, x, y)`: places an unvisited node at
     * (x, y), then its children one level lower with siblings 400 apart, and
     * returns the lowest level used. A visited or unknown id changes nothing.
     */
    method Position(nodeId: string, x: int, y: int) returns (bottom: int)
      requires Valid()
      modifies this
      ensures Valid()
      ensures old(visited) <= visited
      ensures |old(placed)| <= |placed| && placed[..|old(placed)|] == old(placed)
      ensures bottom >= y
      ensures nodeId in old(visited) || nodeId !in nodeMap ==>
        bottom == y && visited == old(visited) && placed == old(placed)
      ensures nodeId !in old(visited) && nodeId in nodeMap ==>
        && bottom >= y + LevelGap
        && nodeId in visited
        && |placed| > |old(placed)|
        && placed[|old(placed)|] == MoveTo(nodeMap[nodeId], Pos(x, y))
      ensures forall k :: |old(placed)| <= k < |placed| ==>
        placed[k].position.value.x >= x && placed[k].position.value.y >= y
      decreases nodeMap.Keys - visited
    {
      if nodeId in visited || nodeId !in nodeMap {
        return y;
      }
      ghost var start := |placed|;
      ghost var before := placed;
      visited := visited + {nodeId};
      IdsAppend(placed, MoveTo(nodeMap[nodeId], Pos(x, y)));
      DistinctAppend(Ids(placed), nodeId);
      placed := placed + [MoveTo(nodeMap[nodeId], Pos(x, y))];
      var children := ChildEdges(edges, nodeId);
      var currentY := y + LevelGap;
      var i := 0;
      while i < |children|
        invariant 0 <= i <= |children|
        invariant Valid()
        invariant old(visited) + {nodeId} <= visited
        invariant |placed| > start && placed[..start] == before
        invariant placed[start] == MoveTo(nodeMap[nodeId], Pos(x, y))
        invariant currentY >= y + LevelGap
        invariant forall k :: start <= k < |placed| ==>
          placed[k].position.value.x >= x && placed[k].position.value.y >= y
      {
        ghost var mid := placed;
        var r := Position(children[i].target, x + i * SiblingGap, currentY);
        assert placed[..|mid|] == mid;
        assert placed[..start] == mid[..start];
        currentY := if r > currentY then r else currentY;
        i := i + 1;
      }
      return if y > currentY then y else currentY;
    }
  }

  /** The no-entry layout: node i at (400i, 0). */
  function Grid(nodes: seq<AppNode>): (r: seq<AppNode>)
    ensures |r| == |nodes|
    ensures forall i :: 0 <= i < |nodes| ==> r[i] == MoveTo(nodes[i], Pos(SiblingGap * i, 0))
  {
    seq(|nodes|, i requires 0 <= i < |nodes| => MoveTo(nodes[i], Pos(SiblingGap * i, 0)))
  }

  /** The `nodes.forEach` pass that appends the unvisited nodes on the leftover row. */
  method PlaceLeftovers(nodes: seq<AppNode>, reached: set<string>, prefix: seq<AppNode>) returns (r: seq<AppNode>)
    ensures r == prefix + LeftoverPlacement(nodes, reached)
  {
    r := prefix;
    var currentX := 0;
    var i := 0;
    while i < |nodes|
      invariant 0 <= i <= |nodes|
      invariant r == prefix + LeftoverPlacement(nodes[..i], reached)
      invariant currentX == SiblingGap * |Unreached(nodes[..i], reached)|
    {
      LeftoverStep(nodes, i, reached);
      if nodes[i].id !in reached {
        r := r + [MoveTo(nodes[i], Pos(currentX, LeftoverRow))];
        currentX := currentX + SiblingGap;
      }
      i := i + 1;
    }
    assert nodes[..i] == nodes;
  }

  /**
   * `optimizeWorkflowLayout(nodes, edges)`. `reached` is the set of ids the
   * walk visited: those nodes come first, the rest follow on the leftover row.
   */
  method OptimizeWorkflowLayout(unseen: Unseen, nodes: seq<AppNode>, edges: seq<Edge>)
    returns (outNodes: seq<AppNode>, outEdges: seq<Edge>, ghost reached: set<string>)
    ensures outEdges == edges
    ensures FirstEntry(unseen, nodes).None? ==> outNodes == Grid(nodes)
    ensures FirstEntry(unseen, nodes).Some? ==>
      var entry := nodes[FirstEntry(unseen, nodes).value];
      && 0 < |reached| <= |outNodes|
      && outNodes[0] == MoveTo(NodeMap(nodes)[entry.id], Pos(0, 0))
      && outNodes[|reached|..] == LeftoverPlacement(nodes, reached)
    ensures FirstEntry(unseen, nodes).Some? && DistinctIds(nodes) ==>
      && multiset(Ids(outNodes)) == multiset(Ids(nodes))
      && forall k :: 0 <= k < |outNodes| ==>
           outNodes[k].id in NodeMap(nodes) && outNodes[k].data == NodeMap(nodes)[outNodes[k].id].data
           && outNodes[k].position.Some?
  {
    outEdges := edges;
    var found := FirstEntry(unseen, nodes);
    if found.None? {
      return Grid(nodes), edges, {};
    }
    var entry := nodes[found.value];
    var pass := new LayoutPass(nodes, edges);
    var _ := pass.Position(entry.id, 0, 0);
    var visitedIds := pass.visited;
    reached := visitedIds;
    var dfs := pass.placed;
    outNodes := PlaceLeftovers(nodes, visitedIds, dfs);
    assert |dfs| == |reached| by {
      DistinctSameSize(Ids(dfs), reached);
    }
    assert outNodes[|reached|..] == LeftoverPlacement(nodes, reached);
    if DistinctIds(nodes) {
      LayoutKeepsNodes(nodes, reached, dfs);
    }
  }

  /**
   * The walk's placements followed by the leftover row are the input nodes,
   * each once, each keeping its data and given a position.
   */
  lemma LayoutKeepsNodes(nodes: seq<AppNode>, reached: set<string>, dfs: seq<AppNode>)
    requires DistinctIds(nodes)
    requires Distinct(Ids(dfs))
    requires forall v :: v in reached <==> v in Ids(dfs)
    requires reached <= NodeMap(nodes).Keys
    requires forall k :: 0 <= k < |dfs| ==>
      dfs[k].id in NodeMap(nodes) && dfs[k].data == NodeMap(nodes)[dfs[k].id].data && dfs[k].position.Some?
    ensures var out := dfs + LeftoverPlacement(nodes, reached);
      && multiset(Ids(out)) == multiset(Ids(nodes))
      && forall k :: 0 <= k < |out| ==>
           out[k].id in NodeMap(nodes) && out[k].data == NodeMap(nodes)[out[k].id].data && out[k].position.Some?
  {
    LayoutPermutes(nodes, reached, dfs);
    var row := LeftoverPlacement(nodes, reached);
    var u := Unreached(nodes, reached);
    var out := dfs + row;
    LeftoversKeepData(nodes, reached);
    forall k | |dfs| <= k < |out|
      ensures out[k].id in NodeMap(nodes) && out[k].data == NodeMap(nodes)[out[k].id].data && out[k].position.Some?
    {
      var x := u[k - |dfs|];
      assert x in u;
      assert out[k] == MoveTo(x, Pos(SiblingGap * (k - |dfs|), LeftoverRow));
    }
  }

  lemma {:induction false} DistinctSameSize(s: seq<string>, v: set<string>)
    requires Distinct(s)
    requires forall x :: x in v <==> x in s
    ensures |s| == |v|
  {
    if s != [] {
      var last := s[|s| - 1];
      var front := s[..|s| - 1];
      assert Distinct(front) by {
        assert forall a :: 0 <= a < |front| ==> front[a] == s[a];
      }
      assert last !in front by {
        forall a | 0 <= a < |front| ensures front[a] != last {
          assert front[a] == s[a];
        }
      }
      assert forall x :: x in v - {last} <==> x in front by {
        assert s == front + [last];
      }
      DistinctSameSize(front, v - {last});
    }
  }

  /** The placed nodes and the leftovers together hold every id of a list with distinct ids once. */
  lemma LayoutPermutes(nodes: seq<AppNode>, reached: set<string>, dfs: seq<AppNode>)
    requires DistinctIds(nodes)
    requires Distinct(Ids(dfs))
    requires forall v :: v in reached <==> v in Ids(dfs)
    requires reached <= NodeMap(nodes).Keys
    ensures multiset(Ids(dfs + LeftoverPlacement(nodes, reached))) == multiset(Ids(nodes))
  {
    var row := LeftoverPlacement(nodes, reached);
    var ids := Ids(nodes);
    var u := Unreached(nodes, reached);
    assert Ids(row) == Ids(u) by {
      forall k | 0 <= k < |row| ensures Ids(row)[k] == Ids(u)[k] {
        assert row[k] == MoveTo(u[k], Pos(SiblingGap * k, LeftoverRow));
      }
    }
    calc {
      multiset(Ids(dfs + row));
    == { assert Ids(dfs + row) == Ids(dfs) + Ids(row); }
      multiset(Ids(dfs)) + multiset(Ids(u));
    == { UnreachedIds(nodes, reached); }
      multiset(Ids(dfs)) + multiset(Without(ids, reached));
    == { WithinDistinct(ids, reached);
         DfsIdsWithin(nodes, reached, dfs);
         DistinctSameElements(Ids(dfs), Within(ids, reached)); }
      multiset(Within(ids, reached)) + multiset(Without(ids, reached));
    == { SplitBySet(ids, reached); }
      multiset(ids);
    }
  }

  /** The placed ids are exactly the ids of the list that were reached. */
  lemma DfsIdsWithin(nodes: seq<AppNode>, reached: set<string>, dfs: seq<AppNode>)
    requires forall v :: v in reached <==> v in Ids(dfs)
    requires reached <= NodeMap(nodes).Keys
    ensures forall x :: x in Ids(dfs) <==> x in Within(Ids(nodes), reached)
  {
    var ids := Ids(nodes);
    forall x
      ensures x in Ids(dfs) <==> x in Within(ids, reached)
    {
      WithinMembers(ids, reached, x);
      if x in reached {
        var i :| 0 <= i < |nodes| && nodes[i].id == x;
        assert ids[i] == x;
      }
    }
  }

  /** With distinct ids every leftover node is its own mapped node. */
  lemma LeftoversKeepData(nodes: seq<AppNode>, reached: set<string>)
    requires DistinctIds(nodes)
    ensures forall x :: x in Unreached(nodes, reached) ==> x.id in NodeMap(nodes) && NodeMap(nodes)[x.id] == x
  {
    forall x | x in Unreached(nodes, reached)
      ensures x.id in NodeMap(nodes) && NodeMap(nodes)[x.id] == x
    {
      var i :| 0 <= i < |nodes| && nodes[i] == x;
      NodeMapDistinct(nodes, i);
    }
  }
}
