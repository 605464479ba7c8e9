/**
 * The typed editor graph: `AppNode` records (an id, the task data and an
 * optional canvas position) and React Flow edges, together with the few
 * list facts the layout and connection checks share.
 */
module AppGraph {
  import opened Common

  datatype Pos = Pos(x: int, y: int)

  /** `node.data`: the task type key and the input values (`inputs` may be absent). */
  datatype NodeData = NodeData(taskType: string, inputs: Option<map<string, string>>)

  datatype AppNode = AppNode(id: string, data: NodeData, position: Option<Pos>)

  datatype Edge = Edge(
    id: string,
    source: string,
    target: string,
    sourceHandle: Option<string>,
    targetHandle: Option<string>,
    animated: bool)

  /** `{...node, position: p}`. */
  function MoveTo(node: AppNode, p: Pos): (r: AppNode)
    ensures r.id == node.id && r.data == node.data && r.position == Some(p)
  {
    node.(position := Some(p))
  }

  /** The node ids, in list order. */
  function Ids(nodes: seq<AppNode>): (r: seq<string>)
    ensures |r| == |nodes|
    ensures forall i :: 0 <= i < |nodes| ==> r[i] == nodes[i].id
  {
    seq(|nodes|, i requires 0 <= i < |nodes| => nodes[i].id)
  }

  predicate Distinct<T(==)>(s: seq<T>) {
    forall i, j :: 0 <= i < j < |s| ==> s[i] != s[j]
  }

  /** The set of node ids. */
  function IdSet(nodes: seq<AppNode>): set<string> {
    set i | 0 <= i < |nodes| :: nodes[i].id
  }

  predicate DistinctIds(nodes: seq<AppNode>) {
    Distinct(Ids(nodes))
  }

  lemma IdsAppend(nodes: seq<AppNode>, n: AppNode)
    ensures Ids(nodes + [n]) == Ids(nodes) + [n.id]
  {
    assert forall i :: 0 <= i < |nodes| ==> (nodes + [n])[i] == nodes[i];
  }

  lemma DistinctAppend<T>(s: seq<T>, x: T)
    requires Distinct(s) && x !in s
    ensures Distinct(s + [x])
  {
    assert forall i :: 0 <= i < |s| ==> (s + [x])[i] == s[i];
  }

  /** `new Map(nodes.map(n => [n.id, n]))`: a later node with the same id replaces an earlier one. */
  function NodeMap(nodes: seq<AppNode>): (m: map<string, AppNode>)
    ensures m.Keys == IdSet(nodes)
    ensures forall k :: k in m ==> m[k].id == k && m[k] in nodes
  {
    if nodes == [] then map[]
    else
      var last := nodes[|nodes| - 1];
      var prior := NodeMap(nodes[..|nodes| - 1]);
      assert forall i :: 0 <= i < |nodes| - 1 ==> nodes[..|nodes| - 1][i] == nodes[i];
      prior[last.id := last]
  }

  /** With distinct ids, the map returns each node under its own id. */
  lemma {:induction false} NodeMapDistinct(nodes: seq<AppNode>, i: nat)
    requires DistinctIds(nodes) && i < |nodes|
    ensures NodeMap(nodes)[nodes[i].id] == nodes[i]
  {
    var n := |nodes| - 1;
    if i < n {
      var front := nodes[..n];
      assert front[i] == nodes[i];
      assert DistinctIds(front) by {
        assert forall a :: 0 <= a < |front| ==> front[a] == nodes[a];
        assert forall a :: 0 <= a < |front| ==> Ids(front)[a] == Ids(nodes)[a];
      }
      NodeMapDistinct(front, i);
      assert Ids(nodes)[i] != Ids(nodes)[n];
    }
  }

  /** In a sequence without repetitions every element occurs once. */
  lemma {:induction false} DistinctCount<T>(s: seq<T>, x: T)
    requires Distinct(s)
    ensures multiset(s)[x] == if x in s then 1 else 0
  {
    if s != [] {
      var t := s[1..];
      assert s == [s[0]] + t;
      assert Distinct(t) by {
        assert forall a, b :: 0 <= a < b < |t| ==> t[a] == s[a + 1] && t[b] == s[b + 1];
      }
      DistinctCount(t, x);
      if x == s[0] {
        assert x !in t by {
          forall k | 0 <= k < |t| ensures t[k] != x {
            assert t[k] == s[k + 1];
          }
        }
      }
    }
  }

  /** Two sequences without repetitions and with the same elements are permutations of each other. */
  lemma DistinctSameElements<T>(a: seq<T>, b: seq<T>)
    requires Distinct(a) && Distinct(b)
    requires forall x :: x in a <==> x in b
    ensures multiset(a) == multiset(b)
  {
    forall x
      ensures multiset(a)[x] == multiset(b)[x]
    {
      DistinctCount(a, x);
      DistinctCount(b, x);
    }
  }
}
