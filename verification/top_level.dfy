/** The labels and positions of the root and of the top-level values, as
    the rendered graph shows them. */
module TopLevel {
  import opened Json
  import opened Graph
  import opened TreeBuilder
  import opened Optional
  import Placement
  import Paths
  import Decimal

  /** The root node: path `$`, label `$` (followed by the value for a
      primitive), at height 0 and centred over its keys. */
  lemma BuildRoot(v: Json)
    ensures Build(v).nodes[0].id == 0 && Build(v).nodes[0].path == Paths.Root
    ensures Build(v).nodes[0].kind == KindOf(v) && Build(v).nodes[0].y == 0
    ensures Build(v).nodes[0].x == -100 * KeyCount(v)
    ensures Build(v).nodes[0].text == if IsPrimitive(v) then Paths.Root + ": " + Stringify(v) else Paths.Root
  {
    var node := Build(v).nodes[0];
    Placement.VisitRoot(v, Paths.Root, None, 0, 0, 0);
    assert node == NewNode(0, v, Paths.Root, 0, 0);
    RootLabel(v);
  }

  /** The root's label is its whole path `$`, as the path has no `.` in it. */
  lemma RootLabel(v: Json)
    ensures NodeLabel(Paths.Root, v) == if IsPrimitive(v) then Paths.Root + ": " + Stringify(v) else Paths.Root
  {
    Paths.RootSegment();
  }

  /** The label of a top-level member, node `id`: its key when the key is
      non-empty and free of `.`, followed by `": "` and the value for a
      primitive. */
  lemma BuildMemberLabel(v: Json, i: nat, id: nat)
    requires v.JObj? && i < |v.members| && id == 1 + SizeBefore(v, i)
    requires '.' !in v.members[i].0 && v.members[i].0 != []
    ensures id < |Build(v).nodes|
    ensures Build(v).nodes[id].path == "$." + v.members[i].0
    ensures Build(v).nodes[id].text
         == if IsPrimitive(v.members[i].1) then v.members[i].0 + ": " + Stringify(v.members[i].1) else v.members[i].0
    ensures Build(v).nodes[id].y == 100
  {
    var key, c := v.members[i].0, v.members[i].1;
    var p := Paths.ChildPath(Paths.Root, false, key);
    assert ObjectKeys(v)[i] == key && Child(v, i) == c by {
      ObjectKeyAt(v, i);
    }
    Placement.BuildChild(v, i, id);
    assert Paths.PathLabel(p) == key by {
      Paths.ObjectChildLabel(Paths.Root, key);
    }
  }

  /** The label of a top-level array element, node `id`, keeps the root's
      `$`: element `i` shows `$[i]`, followed by `": "` and the value for a
      primitive. */
  lemma BuildElementLabel(v: Json, i: nat, id: nat)
    requires v.JArr? && i < |v.elems| && id == 1 + SizeBefore(v, i)
    ensures id < |Build(v).nodes|
    ensures Build(v).nodes[id].path == "$[" + Decimal.FromNat(i) + "]"
    ensures Build(v).nodes[id].text
         == if IsPrimitive(v.elems[i]) then "$[" + Decimal.FromNat(i) + "]" + ": " + Stringify(v.elems[i]) else "$[" + Decimal.FromNat(i) + "]"
  {
    var c, d := v.elems[i], Decimal.FromNat(i);
    var p := Paths.ChildPath(Paths.Root, true, d);
    assert ObjectKeys(v)[i] == d && Child(v, i) == c by {
      ObjectKeyAt(v, i);
    }
    Placement.BuildChild(v, i, id);
    Paths.RootElementLabel(i);
  }
}
