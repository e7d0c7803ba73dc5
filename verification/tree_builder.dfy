/** `createNodesAndEdges`: a depth-first, pre-order walk of a JSON value that
    pushes one node per visited value and one edge per parent-child link.
    The id counter `nodeId`, local to one build, is threaded through the
    walk explicitly: every call takes the next free id and returns the next
    free id after its subtree. */
module TreeBuilder {
  import opened Json
  import opened Graph
  import opened Optional
  import Paths

  /** The nodes and edges pushed by one call, in push order, and the counter
      value after it. */
  datatype Built = Built(nodes: seq<Node>, edges: seq<Edge>, next: nat)

  /** `traverse(obj, currentPath, parentId, level, siblingIndex)` with the
      counter at `next`. The node is pushed first, then the edge from the
      parent when there is one, then the children's subtrees in key order. */
  function Visit(v: Json, path: string, parent: Option<nat>, level: nat, sibling: nat, next: nat): (r: Built)
    decreases v, KeyCount(v) + 1
    ensures |r.nodes| == Size(v)
    ensures r.next == next + |r.nodes|
    ensures |r.edges| == if parent.Some? then |r.nodes| else |r.nodes| - 1
  {
    var node := NewNode(next, v, path, level, sibling);
    var inEdge := if parent.Some? then [Edge(parent.value, next)] else [];
    if IsPrimitive(v) then
      Built([node], inEdge, next + 1)
    else
      var kids := VisitChildren(v, 0, path, next, level + 1, next + 1);
      Built([node] + kids.nodes, inEdge + kids.edges, kids.next)
  }

  /** The `keys.forEach` loop of `traverse` over container `v`, from key
      position `i` on; `parentId` is the container's own id. */
  function VisitChildren(v: Json, i: nat, path: string, parentId: nat, level: nat, next: nat): (r: Built)
    requires !IsPrimitive(v) && i <= KeyCount(v)
    decreases v, KeyCount(v) - i
    ensures |r.nodes| == SizeFrom(v, i)
    ensures |r.edges| == |r.nodes|
    ensures r.next == next + |r.nodes|
  {
    if i == KeyCount(v) then Built([], [], next)
    else
      var childPath := Paths.ChildPath(path, v.JArr?, ObjectKeys(v)[i]);
      var first := Visit(Child(v, i), childPath, Some(parentId), level, i, next);
      var rest := VisitChildren(v, i + 1, path, parentId, level, first.next);
      Built(first.nodes + rest.nodes, first.edges + rest.edges, rest.next)
  }

  /** `createNodesAndEdges(data)`: the counter starts at 0 and the root is
      visited at path `$` with no parent, level 0 and sibling index 0. */
  function Build(v: Json): (r: Built)
    ensures |r.nodes| == Size(v) && |r.edges| == |r.nodes| - 1
  {
    Visit(v, Paths.Root, None, 0, 0, 0)
  }

  /** A container's visit: its node, the edge from its parent when it has
      one, then its children's subtrees. */
  lemma VisitUnfold(v: Json, path: string, parent: Option<nat>, level: nat, sibling: nat, next: nat)
    requires !IsPrimitive(v)
    ensures Visit(v, path, parent, level, sibling, next)
         == Built([NewNode(next, v, path, level, sibling)] + VisitChildren(v, 0, path, next, level + 1, next + 1).nodes,
                  (if parent.Some? then [Edge(parent.value, next)] else []) + VisitChildren(v, 0, path, next, level + 1, next + 1).edges,
                  next + Size(v))
  {
  }

  /** The nodes of a container's visit: its own, then its children's, which
      start one level down with the next id. */
  lemma VisitNodes(v: Json, path: string, parent: Option<nat>, level: nat, sibling: nat, next: nat, kidsLevel: nat, kidsNext: nat)
    requires !IsPrimitive(v) && kidsLevel == level + 1 && kidsNext == next + 1
    ensures Visit(v, path, parent, level, sibling, next).nodes
         == [NewNode(next, v, path, level, sibling)] + VisitChildren(v, 0, path, next, kidsLevel, kidsNext).nodes
  {
    VisitUnfold(v, path, parent, level, sibling, next);
  }

  /** The edges of a container's visit: the one from its parent, when it has
      one, then its children's. */
  lemma VisitEdges(v: Json, path: string, parent: Option<nat>, level: nat, sibling: nat, next: nat, kidsLevel: nat, kidsNext: nat)
    requires !IsPrimitive(v) && kidsLevel == level + 1 && kidsNext == next + 1
    ensures Visit(v, path, parent, level, sibling, next).edges
         == (if parent.Some? then [Edge(parent.value, next)] else []) + VisitChildren(v, 0, path, next, kidsLevel, kidsNext).edges
  {
    VisitUnfold(v, path, parent, level, sibling, next);
  }

  /** A container root's build: the root node, then its children's
      subtrees and their edges; the root itself has no incoming edge. */
  lemma BuildUnfold(v: Json)
    requires !IsPrimitive(v)
    ensures Build(v).nodes == [NewNode(0, v, Paths.Root, 0, 0)] + VisitChildren(v, 0, Paths.Root, 0, 1, 1).nodes
    ensures Build(v).edges == VisitChildren(v, 0, Paths.Root, 0, 1, 1).edges
  {
    VisitNodes(v, Paths.Root, None, 0, 0, 0, 1, 1);
    VisitEdges(v, Paths.Root, None, 0, 0, 0, 1, 1);
    assert [] + VisitChildren(v, 0, Paths.Root, 0, 1, 1).edges == VisitChildren(v, 0, Paths.Root, 0, 1, 1).edges;
  }

  /** The children from position `i` on: the subtree of child `i`, then the
      rest. */
  lemma ChildrenUnfold(v: Json, i: nat, path: string, parentId: nat, level: nat, next: nat, first: Built, rest: Built)
    requires !IsPrimitive(v) && i < KeyCount(v)
    requires first == Visit(Child(v, i), Paths.ChildPath(path, v.JArr?, ObjectKeys(v)[i]), Some(parentId), level, i, next)
    requires rest == VisitChildren(v, i + 1, path, parentId, level, first.next)
    ensures VisitChildren(v, i, path, parentId, level, next) == Built(first.nodes + rest.nodes, first.edges + rest.edges, rest.next)
  {
  }

  /** Number of values in the children before position `i` of a container. */
  function SizeBefore(v: Json, i: nat): nat
    requires !IsPrimitive(v) && i <= KeyCount(v)
  {
    if i == 0 then 0 else SizeBefore(v, i - 1) + Size(Child(v, i - 1))
  }
}
