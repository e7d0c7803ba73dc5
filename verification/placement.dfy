/** Where the traversal puts the value under each key of a container. */
module Placement {
  import opened Json
  import opened Graph
  import opened Optional
  import opened TreeBuilder
  import Paths

  lemma VisitRoot(v: Json, path: string, parent: Option<nat>, level: nat, sibling: nat, next: nat)
    ensures Visit(v, path, parent, level, sibling, next).nodes[0] == NewNode(next, v, path, level, sibling)
    ensures parent.Some? ==> Visit(v, path, parent, level, sibling, next).edges[0] == Edge(parent.value, next)
  {
    if !IsPrimitive(v) {
      VisitUnfold(v, path, parent, level, sibling, next);
    }
  }

  /** Within the children visited from position `j` on, with the counter
      at `next`, the children from `i` on come after the subtrees of
      children `j..i-1`: from offset `k` on, the nodes and edges are
      exactly those the loop pushes when started at `i` with the counter at
      `next + k`. */
  lemma {:induction false} ChildrenAt(v: Json, j: nat, i: nat, path: string, parentId: nat, level: nat, next: nat,
                                      k: int, t: nat)
    requires !IsPrimitive(v) && j <= i <= KeyCount(v)
    requires next + k == t && t + SizeFrom(v, i) == next + SizeFrom(v, j)
    decreases i - j
    ensures 0 <= k <= |VisitChildren(v, j, path, parentId, level, next).nodes|
    ensures VisitChildren(v, j, path, parentId, level, next).nodes[k..] == VisitChildren(v, i, path, parentId, level, t).nodes
    ensures VisitChildren(v, j, path, parentId, level, next).edges[k..] == VisitChildren(v, i, path, parentId, level, t).edges
  {
    if j == i {
      assert next == t && k == 0;
    } else {
      var mid, k' := next + Size(Child(v, j)), k - Size(Child(v, j));
      ChildrenAt(v, j + 1, i, path, parentId, level, mid, k', t);
      ChildrenStep(v, j, path, parentId, level, next, mid, k', k, VisitChildren(v, i, path, parentId, level, t));
    }
  }

  /** One step of `ChildrenAt`: what the loop from `j + 1` pushes from
      offset `k'` on, the loop from `j` pushes from offset
      `Size(Child(v, j)) + k'` on. */
  lemma ChildrenStep(v: Json, j: nat, path: string, parentId: nat, level: nat, next: nat, mid: nat,
                     k': nat, k: nat, target: Built)
    requires !IsPrimitive(v) && j < KeyCount(v) && mid == next + Size(Child(v, j)) && k == Size(Child(v, j)) + k'
    requires k' <= |VisitChildren(v, j + 1, path, parentId, level, mid).nodes|
    requires VisitChildren(v, j + 1, path, parentId, level, mid).nodes[k'..] == target.nodes
    requires VisitChildren(v, j + 1, path, parentId, level, mid).edges[k'..] == target.edges
    ensures k <= |VisitChildren(v, j, path, parentId, level, next).nodes|
    ensures VisitChildren(v, j, path, parentId, level, next).nodes[k..] == target.nodes
    ensures VisitChildren(v, j, path, parentId, level, next).edges[k..] == target.edges
  {
    var whole := VisitChildren(v, j, path, parentId, level, next);
    var first := Visit(Child(v, j), Paths.ChildPath(path, v.JArr?, ObjectKeys(v)[j]), Some(parentId), level, j, next);
    assert |first.nodes| == |first.edges| == Size(Child(v, j));
    assert first.next == mid;
    var rest := VisitChildren(v, j + 1, path, parentId, level, mid);
    ChildrenUnfold(v, j, path, parentId, level, next, first, rest);
    DropFront(whole, first, rest, target, k', k);
  }

  /** When `whole` is `first` followed by `rest`, dropping `first` and
      then `k'` more entries from `whole` leaves what `rest` leaves. */
  lemma DropFront(whole: Built, first: Built, rest: Built, target: Built, k': nat, k: nat)
    requires whole.nodes == first.nodes + rest.nodes && whole.edges == first.edges + rest.edges
    requires |first.nodes| == |first.edges| && k == |first.nodes| + k'
    requires k' <= |rest.nodes| && k' <= |rest.edges|
    requires rest.nodes[k'..] == target.nodes && rest.edges[k'..] == target.edges
    ensures k <= |whole.nodes| && whole.nodes[k..] == target.nodes && whole.edges[k..] == target.edges
  {
    assert whole.nodes[k..] == rest.nodes[k'..];
    assert whole.edges[k..] == rest.edges[k'..];
  }

  /** The loop started at key `i` first pushes the node of child `i`, at
      the path for key `i`, with sibling index `i`, and its edge from the
      container. */
  lemma ChildrenFirst(v: Json, i: nat, path: string, parentId: nat, level: nat, next: nat)
    requires !IsPrimitive(v) && i < KeyCount(v)
    ensures |VisitChildren(v, i, path, parentId, level, next).nodes| > 0
    ensures VisitChildren(v, i, path, parentId, level, next).nodes[0]
         == NewNode(next, Child(v, i), Paths.ChildPath(path, v.JArr?, ObjectKeys(v)[i]), level, i)
    ensures VisitChildren(v, i, path, parentId, level, next).edges[0] == Edge(parentId, next)
  {
    var childPath := Paths.ChildPath(path, v.JArr?, ObjectKeys(v)[i]);
    var first := Visit(Child(v, i), childPath, Some(parentId), level, i, next);
    var rest := VisitChildren(v, i + 1, path, parentId, level, first.next);
    ChildrenUnfold(v, i, path, parentId, level, next, first, rest);
    VisitRoot(Child(v, i), childPath, Some(parentId), level, i, next);
    assert (first.nodes + rest.nodes)[0] == first.nodes[0];
    assert (first.edges + rest.edges)[0] == first.edges[0];
  }

  /** The children before position `i` and those from `i` on make up all
      the children. */
  lemma {:induction false} SizeSplit(v: Json, i: nat)
    requires !IsPrimitive(v) && i <= KeyCount(v)
    decreases i
    ensures SizeBefore(v, i) + SizeFrom(v, i) == SizeFrom(v, 0)
  {
    if i > 0 {
      SizeSplit(v, i - 1);
    }
  }

  /** In the whole build, the value under the `i`-th key of a container
      root is node `id`, the node after the root and the subtrees of keys
      `0..i-1`: path `$.key` or `$[i]`, level 1, sibling index `i`, and
      its edge comes from the root. */
  lemma BuildChild(v: Json, i: nat, id: nat)
    requires !IsPrimitive(v) && i < KeyCount(v) && id == 1 + SizeBefore(v, i)
    ensures id < |Build(v).nodes|
    ensures Build(v).nodes[id] == NewNode(id, Child(v, i), Paths.ChildPath(Paths.Root, v.JArr?, ObjectKeys(v)[i]), 1, i)
    ensures Build(v).edges[id - 1] == Edge(0, id)
  {
    var sb := id - 1;
    var kids := VisitChildren(v, 0, Paths.Root, 0, 1, 1);
    var here := VisitChildren(v, i, Paths.Root, 0, 1, id);
    SizeSplit(v, i);
    assert sb < SizeFrom(v, 0);
    BuildThenChildren(v, sb);
    ChildrenAt(v, 0, i, Paths.Root, 0, 1, 1, sb, id);
    ChildrenFirst(v, i, Paths.Root, 0, 1, id);
    assert kids.nodes[sb] == kids.nodes[sb..][0] == here.nodes[0];
    assert kids.edges[sb] == kids.edges[sb..][0] == here.edges[0];
  }

  /** After the root node come the children's subtrees; the root has no
      incoming edge, so edge `m` is the children's edge `m`. */
  lemma BuildThenChildren(v: Json, m: nat)
    requires !IsPrimitive(v) && m < SizeFrom(v, 0)
    ensures |Build(v).nodes| > 1 + m
    ensures Build(v).nodes[1 + m] == VisitChildren(v, 0, Paths.Root, 0, 1, 1).nodes[m]
    ensures Build(v).edges[m] == VisitChildren(v, 0, Paths.Root, 0, 1, 1).edges[m]
  {
    VisitThenChildren(v, Paths.Root, None, 0, 0, 0, 1, 1, m, 1 + m);
    assert Build(v).edges == VisitChildren(v, 0, Paths.Root, 0, 1, 1).edges by {
      BuildUnfold(v);
    }
  }

  /** A container's first child is pushed right after it, one level down,
      with sibling index 0. */
  lemma VisitFirstChild(v: Json, path: string, parent: Option<nat>, level: nat, sibling: nat, next: nat)
    requires !IsPrimitive(v) && KeyCount(v) > 0
    ensures |Visit(v, path, parent, level, sibling, next).nodes| > 1
    ensures Visit(v, path, parent, level, sibling, next).nodes[1]
         == NewNode(next + 1, Child(v, 0), Paths.ChildPath(path, v.JArr?, ObjectKeys(v)[0]), level + 1, 0)
  {
    var kids := VisitChildren(v, 0, path, next, level + 1, next + 1);
    VisitUnfold(v, path, parent, level, sibling, next);
    ChildrenFirst(v, 0, path, next, level + 1, next + 1);
    assert Visit(v, path, parent, level, sibling, next).nodes[1] == kids.nodes[0];
  }

  /** The loop started at key `i` first pushes the subtree of child `i`. */
  lemma ChildrenSubtree(v: Json, i: nat, path: string, parentId: nat, level: nat, next: nat, m: nat)
    requires !IsPrimitive(v) && i < KeyCount(v) && m < Size(Child(v, i))
    ensures |VisitChildren(v, i, path, parentId, level, next).nodes| > m
    ensures VisitChildren(v, i, path, parentId, level, next).nodes[m]
         == Visit(Child(v, i), Paths.ChildPath(path, v.JArr?, ObjectKeys(v)[i]), Some(parentId), level, i, next).nodes[m]
  {
    var first := Visit(Child(v, i), Paths.ChildPath(path, v.JArr?, ObjectKeys(v)[i]), Some(parentId), level, i, next);
    var rest := VisitChildren(v, i + 1, path, parentId, level, first.next);
    ChildrenUnfold(v, i, path, parentId, level, next, first, rest);
  }

  /** The subtree of the first value under a container root follows the
      root node. */
  lemma BuildFirstSubtree(v: Json, m: nat)
    requires !IsPrimitive(v) && KeyCount(v) > 0 && m < Size(Child(v, 0))
    ensures |Build(v).nodes| > 1 + m
    ensures Build(v).nodes[1 + m]
         == Visit(Child(v, 0), Paths.ChildPath(Paths.Root, v.JArr?, ObjectKeys(v)[0]), Some(0), 1, 0, 1).nodes[m]
  {
    assert SizeFrom(v, 0) == Size(Child(v, 0)) + SizeFrom(v, 1);
    BuildThenChildren(v, m);
    ChildrenSubtree(v, 0, Paths.Root, 0, 1, 1, m);
  }

  /** Anywhere in the tree: in the visit of a container, the subtree of
      its `i`-th child starts right after the container's own node and the
      subtrees of children `0..i-1`, i.e. at offset `1 + SizeBefore(v, i)`.
      The child is visited at its own path `childPath`, with the
      container's id as parent, one level down (`childLevel`), sibling
      index `i`, and the counter at `next` plus that offset (`start`). */
  lemma VisitChildSubtree(v: Json, path: string, parent: Option<nat>, level: nat, sibling: nat, next: nat,
                          i: nat, childPath: string, offset: nat, childLevel: nat, start: nat, m: nat)
    requires !IsPrimitive(v) && i < KeyCount(v) && m < Size(Child(v, i))
    requires childPath == Paths.ChildPath(path, v.JArr?, ObjectKeys(v)[i])
    requires offset == 1 + SizeBefore(v, i) && childLevel == level + 1 && start == next + offset
    ensures offset + m < |Visit(v, path, parent, level, sibling, next).nodes|
    ensures Visit(v, path, parent, level, sibling, next).nodes[offset + m]
         == Visit(Child(v, i), childPath, Some(next), childLevel, i, start).nodes[m]
  {
    SizeSplit(v, i);
    VisitThenChildren(v, path, parent, level, sibling, next, childLevel, next + 1, offset - 1 + m, offset + m);
    ChildrenSubtreeAt(v, i, path, childPath, next, childLevel, next + 1, offset - 1, start, m);
  }

  /** In the visit of a container, the container's own node comes first
      and then its children's subtrees, so node `n + 1` is the children's
      node `n`. */
  lemma VisitThenChildren(v: Json, path: string, parent: Option<nat>, level: nat, sibling: nat, next: nat,
                          childLevel: nat, childNext: nat, n: nat, at: nat)
    requires !IsPrimitive(v) && childLevel == level + 1 && childNext == next + 1
    requires n < SizeFrom(v, 0) && at == n + 1
    ensures at < |Visit(v, path, parent, level, sibling, next).nodes|
    ensures Visit(v, path, parent, level, sibling, next).nodes[at]
         == VisitChildren(v, 0, path, next, childLevel, childNext).nodes[n]
  {
    var kids := VisitChildren(v, 0, path, next, childLevel, childNext);
    VisitNodes(v, path, parent, level, sibling, next, childLevel, childNext);
    AfterHead(NewNode(next, v, path, level, sibling), Visit(v, path, parent, level, sibling, next).nodes, kids.nodes, n, at);
  }

  /** The loop over all keys of a container pushes the subtree of key `i`
      after the subtrees of keys `0..i-1`. */
  lemma ChildrenSubtreeAt(v: Json, i: nat, path: string, childPath: string, parentId: nat, level: nat, next: nat,
                          before: nat, start: nat, m: nat)
    requires !IsPrimitive(v) && i < KeyCount(v) && m < Size(Child(v, i))
    requires childPath == Paths.ChildPath(path, v.JArr?, ObjectKeys(v)[i])
    requires before == SizeBefore(v, i) && start == next + before
    ensures before + m < |VisitChildren(v, 0, path, parentId, level, next).nodes|
    ensures VisitChildren(v, 0, path, parentId, level, next).nodes[before + m]
         == Visit(Child(v, i), childPath, Some(parentId), level, i, start).nodes[m]
  {
    var kids := VisitChildren(v, 0, path, parentId, level, next);
    var here := VisitChildren(v, i, path, parentId, level, start);
    SizeSplit(v, i);
    ChildrenAt(v, 0, i, path, parentId, level, next, before, start);
    ChildrenSubtree(v, i, path, parentId, level, start, m);
    SuffixIndex(kids.nodes, here.nodes, before, m);
  }

  /** Element `m` of the suffix from `k` is element `k + m` of the whole. */
  lemma SuffixIndex<T>(a: seq<T>, b: seq<T>, k: nat, m: nat)
    requires k <= |a| && a[k..] == b && m < |b|
    ensures k + m < |a| && a[k + m] == b[m]
  {
    assert a[k..][m] == a[k + m];
  }

  /** Once `x` is put in front of `a`, what was at `n` in `a` is at
      `n + 1`. */
  lemma AfterHead<T>(x: T, whole: seq<T>, a: seq<T>, n: nat, at: nat)
    requires whole == [x] + a && n < |a| && at == n + 1
    ensures at < |whole| && whole[at] == a[n]
  {
  }
}
