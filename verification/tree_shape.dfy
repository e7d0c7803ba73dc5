/** The shape of what `createNodesAndEdges` returns: a tree in pre-order,
    with one incoming edge per non-root node, leaving its parent. */
module TreeShape {
  import opened Json
  import opened Graph
  import opened Optional
  import opened TreeBuilder
  import Paths

  /** `child` extends `parent` by one `.key` or `[index]` step (or more). */
  predicate ExtendsPath(parent: string, child: string) {
    |parent| < |child| && child[..|parent|] == parent && (child[|parent|] == '.' || child[|parent|] == '[')
  }

  /** Node `s` is the parent of node `t`: a container one level up whose path
      `t`'s path extends, and every node between them in push order lies
      strictly deeper than `s` (so `s` is the nearest earlier node one level
      up). */
  ghost predicate ParentOf(nodes: seq<Node>, s: nat, t: nat)
    requires s < t < |nodes|
  {
    && nodes[s].kind != PrimitiveKind
    && nodes[t].y == nodes[s].y + 100
    && ExtendsPath(nodes[s].path, nodes[t].path)
    && forall m :: s < m < t ==> nodes[m].y > nodes[s].y
  }

  /** Node `j` of the forest lies deeper than the outer parent `p` (whose
      path is `pp` and whose depth is `py`), and edge `j` enters it, either
      from `p` or from an earlier node of the forest. */
  ghost predicate EdgeEntersFromParent(nodes: seq<Node>, edges: seq<Edge>, base: nat, p: nat, py: int, pp: string, j: nat)
    requires j < |nodes| && j < |edges|
  {
    && nodes[j].y > py
    && edges[j].target == base + j
    && (|| (edges[j].source == p && nodes[j].y == py + 100 && ExtendsPath(pp, nodes[j].path))
        || (base <= edges[j].source < base + j && ParentOf(nodes, edges[j].source - base, j)))
  }

  /** `nodes`/`edges` form a forest pushed from id `base` on, hung below the
      node with id `p`: one edge per node, pushed in the same order. */
  ghost predicate Hung(nodes: seq<Node>, edges: seq<Edge>, base: nat, p: nat, py: int, pp: string) {
    && p < base
    && |edges| == |nodes|
    && forall j {:trigger EdgeEntersFromParent(nodes, edges, base, p, py, pp, j)} ::
         0 <= j < |edges| ==> EdgeEntersFromParent(nodes, edges, base, p, py, pp, j)
  }

  /** Two forests hung below the same node, pushed one after the other. */
  lemma HungConcat(n1: seq<Node>, e1: seq<Edge>, n2: seq<Node>, e2: seq<Edge>, base: nat, mid: nat, p: nat, py: int, pp: string)
    requires mid == base + |n1|
    requires Hung(n1, e1, base, p, py, pp)
    requires Hung(n2, e2, mid, p, py, pp)
    ensures Hung(n1 + n2, e1 + e2, base, p, py, pp)
  {
    var nodes, edges := n1 + n2, e1 + e2;
    forall j | 0 <= j < |edges|
      ensures EdgeEntersFromParent(nodes, edges, base, p, py, pp, j)
    {
      if j < |n1| {
        assert EdgeEntersFromParent(n1, e1, base, p, py, pp, j);
        if edges[j].source != p {
          var s := edges[j].source - base;
          assert ParentOf(n1, s, j);
          assert forall m :: s < m < j ==> nodes[m] == n1[m];
        }
      } else {
        var j2 := j - |n1|;
        assert EdgeEntersFromParent(n2, e2, base + |n1|, p, py, pp, j2);
        if edges[j].source != p {
          var s2 := edges[j].source - base - |n1|;
          assert ParentOf(n2, s2, j2);
          assert forall m :: s2 + |n1| < m < j ==> nodes[m] == n2[m - |n1|];
        }
      }
    }
  }

  /** A container node pushed before the forest of its children. */
  lemma HungAttachRoot(root: Node, kn: seq<Node>, ke: seq<Edge>, base: nat, kidsBase: nat, p: nat, py: int, pp: string, y: int, path: string)
    requires p < base && kidsBase == base + 1
    requires root.kind != PrimitiveKind && root.y == y && root.path == path
    requires y == py + 100 && ExtendsPath(pp, path)
    requires Hung(kn, ke, kidsBase, base, y, path)
    ensures Hung([root] + kn, [Edge(p, base)] + ke, base, p, py, pp)
  {
    var nodes, edges := [root] + kn, [Edge(p, base)] + ke;
    forall j | 0 <= j < |edges|
      ensures EdgeEntersFromParent(nodes, edges, base, p, py, pp, j)
    {
      if j > 0 {
        var j0 := j - 1;
        assert EdgeEntersFromParent(kn, ke, kidsBase, base, y, path, j0);
        assert nodes[j] == kn[j0];
        if ke[j0].source == base {
          forall m | 0 < m < j
            ensures nodes[m].y > root.y
          {
            assert EdgeEntersFromParent(kn, ke, kidsBase, base, y, path, m - 1);
          }
          assert ParentOf(nodes, 0, j);
        } else {
          var s0 := ke[j0].source - base - 1;
          assert ParentOf(kn, s0, j0);
          assert forall m :: s0 + 1 < m < j ==> nodes[m] == kn[m - 1];
          assert ParentOf(nodes, s0 + 1, j);
        }
      }
    }
  }

  /** A subtree visited below parent `p` (path `pp`, depth `py`) is a forest
      hung below `p`. */
  lemma {:induction false} VisitHung(v: Json, path: string, p: nat, pp: string, py: int, level: nat, sibling: nat, next: nat)
    requires p < next && py + 100 == level * 100 && ExtendsPath(pp, path)
    decreases v, KeyCount(v) + 1
    ensures Hung(Visit(v, path, Some(p), level, sibling, next).nodes,
                 Visit(v, path, Some(p), level, sibling, next).edges, next, p, py, pp)
  {
    var root := NewNode(next, v, path, level, sibling);
    if IsPrimitive(v) {
      var r := Visit(v, path, Some(p), level, sibling, next);
      assert r.nodes == [root] && r.edges == [Edge(p, next)];
      assert EdgeEntersFromParent(r.nodes, r.edges, next, p, py, pp, 0);
    } else {
      var y, kl, kn := level * 100, level + 1, next + 1;
      var kids := VisitChildren(v, 0, path, next, kl, kn);
      ChildrenHung(v, 0, path, next, y, kl, kn);
      HungAttachRoot(root, kids.nodes, kids.edges, next, kn, p, py, pp, y, path);
      VisitNodes(v, path, Some(p), level, sibling, next, kl, kn);
      VisitEdges(v, path, Some(p), level, sibling, next, kl, kn);
    }
  }

  /** The children of a container (id `parentId`, path `path`, depth `py`)
      visited from position `i` on form a forest hung below the container. */
  lemma {:induction false} ChildrenHung(v: Json, i: nat, path: string, parentId: nat, py: int, level: nat, next: nat)
    requires !IsPrimitive(v) && i <= KeyCount(v)
    requires parentId < next && py + 100 == level * 100
    decreases v, KeyCount(v) - i
    ensures Hung(VisitChildren(v, i, path, parentId, level, next).nodes,
                 VisitChildren(v, i, path, parentId, level, next).edges, next, parentId, py, path)
  {
    if i < KeyCount(v) {
      var c, i' := Child(v, i), i + 1;
      var childPath := Paths.ChildPath(path, v.JArr?, ObjectKeys(v)[i]);
      var first := Visit(c, childPath, Some(parentId), level, i, next);
      var mid := first.next;
      VisitHung(c, childPath, parentId, path, py, level, i, next);
      ChildrenHung(v, i', path, parentId, py, level, mid);
      var rest := VisitChildren(v, i', path, parentId, level, mid);
      ChildrenUnfold(v, i, path, parentId, level, next, first, rest);
      HungConcat(first.nodes, first.edges, rest.nodes, rest.edges, next, mid, parentId, py, path);
    }
  }

  // ---------------------------------------------------------------------
  // Ids

  /** The nodes carry the consecutive ids `base`, `base + 1`, ... */
  predicate IdsFrom(nodes: seq<Node>, base: nat) {
    forall k :: 0 <= k < |nodes| ==> nodes[k].id == base + k
  }

  lemma IdsConcat(n1: seq<Node>, n2: seq<Node>, base: nat, mid: nat)
    requires mid == base + |n1| && IdsFrom(n1, base) && IdsFrom(n2, mid)
    ensures IdsFrom(n1 + n2, base)
  {
    forall k | |n1| <= k < |n1 + n2|
      ensures (n1 + n2)[k].id == base + k
    {
      assert (n1 + n2)[k] == n2[k - |n1|];
    }
  }

  /** Each call takes ids from the counter in push order. */
  lemma {:induction false} VisitIds(v: Json, path: string, parent: Option<nat>, level: nat, sibling: nat, next: nat)
    decreases v, KeyCount(v) + 1
    ensures IdsFrom(Visit(v, path, parent, level, sibling, next).nodes, next)
  {
    var root := NewNode(next, v, path, level, sibling);
    if IsPrimitive(v) {
      assert Visit(v, path, parent, level, sibling, next).nodes == [root];
    } else {
      var kl, kn := level + 1, next + 1;
      var kids := VisitChildren(v, 0, path, next, kl, kn);
      ChildrenIds(v, 0, path, next, kl, kn);
      VisitNodes(v, path, parent, level, sibling, next, kl, kn);
      IdsConcat([root], kids.nodes, next, kn);
    }
  }

  lemma {:induction false} ChildrenIds(v: Json, i: nat, path: string, parentId: nat, level: nat, next: nat)
    requires !IsPrimitive(v) && i <= KeyCount(v)
    decreases v, KeyCount(v) - i
    ensures IdsFrom(VisitChildren(v, i, path, parentId, level, next).nodes, next)
  {
    if i < KeyCount(v) {
      var c, i' := Child(v, i), i + 1;
      var childPath := Paths.ChildPath(path, v.JArr?, ObjectKeys(v)[i]);
      var first := Visit(c, childPath, Some(parentId), level, i, next);
      var mid := first.next;
      VisitIds(c, childPath, Some(parentId), level, i, next);
      ChildrenIds(v, i', path, parentId, level, mid);
      var rest := VisitChildren(v, i', path, parentId, level, mid);
      ChildrenUnfold(v, i, path, parentId, level, next, first, rest);
      IdsConcat(first.nodes, rest.nodes, next, mid);
    }
  }

  // ---------------------------------------------------------------------
  // The whole build

  /** `nodes`/`edges` is a tree rooted at node 0, listed in pre-order: node
      `k` has id `k`, and edge `j` enters node `j + 1` from its parent, an
      earlier node. */
  ghost predicate IsTree(nodes: seq<Node>, edges: seq<Edge>) {
    && |nodes| >= 1
    && |edges| == |nodes| - 1
    && IdsFrom(nodes, 0)
    && forall j :: 0 <= j < |edges| ==>
         && edges[j].target == j + 1
         && edges[j].source <= j
         && ParentOf(nodes, edges[j].source, j + 1)
  }

  /** A container root with id 0 above a forest hung below it is a tree. */
  lemma RootedForest(root: Node, kn: seq<Node>, ke: seq<Edge>, y: int, path: string)
    requires root.kind != PrimitiveKind && root.y == y && root.path == path
    requires IdsFrom([root] + kn, 0)
    requires Hung(kn, ke, 1, 0, y, path)
    ensures IsTree([root] + kn, ke)
  {
    var nodes := [root] + kn;
    forall j | 0 <= j < |ke|
      ensures ke[j].target == j + 1 && ke[j].source <= j && ParentOf(nodes, ke[j].source, j + 1)
    {
      assert EdgeEntersFromParent(kn, ke, 1, 0, y, path, j);
      assert nodes[j + 1] == kn[j];
      if ke[j].source == 0 {
        forall m | 0 < m < j + 1
          ensures nodes[m].y > root.y
        {
          assert EdgeEntersFromParent(kn, ke, 1, 0, y, path, m - 1);
        }
      } else {
        var s0 := ke[j].source - 1;
        assert ParentOf(kn, s0, j);
        assert forall m :: s0 + 1 < m < j + 1 ==> nodes[m] == kn[m - 1];
      }
    }
  }

  /** What `createNodesAndEdges` returns is a tree in pre-order. */
  lemma BuildIsTree(v: Json)
    ensures IsTree(Build(v).nodes, Build(v).edges)
  {
    VisitIds(v, Paths.Root, None, 0, 0, 0);
    if IsPrimitive(v) {
      assert Build(v).edges == [];
    } else {
      var root := NewNode(0, v, Paths.Root, 0, 0);
      var kids := VisitChildren(v, 0, Paths.Root, 0, 1, 1);
      VisitNodes(v, Paths.Root, None, 0, 0, 0, 1, 1);
      VisitEdges(v, Paths.Root, None, 0, 0, 0, 1, 1);
      ChildrenHung(v, 0, Paths.Root, 0, 0, 1, 1);
      RootedForest(root, kids.nodes, kids.edges, 0, Paths.Root);
      assert Build(v).nodes == [root] + kids.nodes;
      assert Build(v).edges == [] + kids.edges == kids.edges;
    }
  }

  // ---------------------------------------------------------------------
  // Consequences for the rendered graph

  /** The root has no incoming edge, every other node exactly one, edges run
      from lower to higher ids and never leave a primitive, and the node and
      edge id texts are all distinct. */
  lemma TreeFacts(nodes: seq<Node>, edges: seq<Edge>)
    requires IsTree(nodes, edges)
    ensures forall j :: 0 <= j < |edges| ==> edges[j].target != nodes[0].id
    ensures forall t :: 0 < t < |nodes| ==> edges[t - 1].target == nodes[t].id
    ensures forall j1, j2 :: 0 <= j1 < |edges| && 0 <= j2 < |edges| && edges[j1].target == edges[j2].target ==> j1 == j2
    ensures forall j :: 0 <= j < |edges| ==> edges[j].source < edges[j].target
    ensures forall j :: 0 <= j < |edges| ==> edges[j].source < |nodes| && nodes[edges[j].source].kind != PrimitiveKind
    ensures forall a, b :: 0 <= a < |nodes| && 0 <= b < |nodes| && NodeIdText(nodes[a].id) == NodeIdText(nodes[b].id) ==> a == b
    ensures forall a, b :: 0 <= a < |edges| && 0 <= b < |edges| && EdgeIdText(edges[a]) == EdgeIdText(edges[b]) ==> a == b
  {
    forall j | 0 <= j < |edges|
      ensures edges[j].source < |nodes| && nodes[edges[j].source].kind != PrimitiveKind
    {
      assert ParentOf(nodes, edges[j].source, j + 1);
    }
    forall a, b | 0 <= a < |nodes| && 0 <= b < |nodes| && NodeIdText(nodes[a].id) == NodeIdText(nodes[b].id)
      ensures a == b
    {
      NodeIdTextInjective(nodes[a].id, nodes[b].id);
    }
    forall a, b | 0 <= a < |edges| && 0 <= b < |edges| && EdgeIdText(edges[a]) == EdgeIdText(edges[b])
      ensures a == b
    {
      EdgeIdTextInjective(edges[a], edges[b]);
    }
  }

  /** Number of edges on the way up from node `t` to the root. */
  function TreeDepth(edges: seq<Edge>, t: nat): nat
    requires t <= |edges|
    requires forall j :: 0 <= j < |edges| ==> edges[j].source <= j
    decreases t
  {
    if t == 0 then 0 else 1 + TreeDepth(edges, edges[t - 1].source)
  }

  /** With the root at height 0, a node's height is its depth in the tree
      times the vertical spacing. */
  lemma {:induction false} HeightIsDepth(nodes: seq<Node>, edges: seq<Edge>, t: nat)
    requires IsTree(nodes, edges) && nodes[0].y == 0 && t < |nodes|
    ensures nodes[t].y == TreeDepth(edges, t) * 100
  {
    if t > 0 {
      var s := edges[t - 1].source;
      assert ParentOf(nodes, s, t);
      HeightIsDepth(nodes, edges, s);
    }
  }
}
