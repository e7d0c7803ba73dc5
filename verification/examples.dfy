/** Worked instances of the builder and the search on small documents. */
module Examples {
  import opened Json
  import opened Graph
  import opened Optional
  import opened TreeBuilder
  import PathSearch
  import Paths
  import Placement
  import TopLevel

  // ---------------------------------------------------------------------
  // A value two levels down

  /** In an object whose first member `k1` holds an object with a first
      member `k0`, node 2 is the value under `k0`, pushed two levels down
      with sibling index 0 at the path of `k0` below `$.k1`. */
  lemma NestedFirstMember(v: Json, k1: string, inner: Json, k0: string, a: Json)
    requires v.JObj? && |v.members| > 0 && v.members[0] == (k1, inner)
    requires inner.JObj? && |inner.members| > 0 && inner.members[0] == (k0, a)
    ensures |Build(v).nodes| > 2
    ensures Build(v).nodes[2] == NewNode(2, a, Paths.ChildPath(Paths.ChildPath(Paths.Root, false, k1), false, k0), 2, 0)
  {
    var p1 := Paths.ChildPath(Paths.Root, false, k1);
    assert ObjectKeys(v)[0] == k1 && Child(v, 0) == inner by {
      ObjectKeyAt(v, 0);
    }
    assert ObjectKeys(inner)[0] == k0 && Child(inner, 0) == a by {
      ObjectKeyAt(inner, 0);
    }
    assert Size(inner) == 1 + SizeFrom(inner, 0) >= 2;
    Placement.BuildFirstSubtree(v, 1);
    Placement.VisitFirstChild(inner, p1, Some(0), 1, 0, 1);
  }

  /** Node 2 is the first node at path `$.k1.k0`: the root's path `$` and
      the inner object's path `$.k1` are shorter. */
  lemma NestedFirstMemberPath(v: Json, k1: string, inner: Json, k0: string, a: Json)
    requires v.JObj? && |v.members| > 0 && v.members[0] == (k1, inner)
    requires inner.JObj? && |inner.members| > 0 && inner.members[0] == (k0, a)
    ensures |Build(v).nodes| > 2
    ensures Build(v).nodes[2].path == "$." + k1 + "." + k0
    ensures Build(v).nodes[0].path != "$." + k1 + "." + k0
    ensures Build(v).nodes[1].path != "$." + k1 + "." + k0
  {
    var nodes, q := Build(v).nodes, "$." + k1 + "." + k0;
    var p1 := Paths.ChildPath(Paths.Root, false, k1);
    var p2 := Paths.ChildPath(p1, false, k0);
    assert p2 == q;
    NestedFirstMember(v, k1, inner, k0, a);
    assert nodes[2].path == p2;
    assert |nodes[0].path| < |q| by {
      TopLevel.BuildRoot(v);
    }
    assert |nodes[1].path| < |q| by {
      ObjectKeyAt(v, 0);
      Placement.BuildChild(v, 0, 1);
      assert nodes[1].path == p1;
    }
  }

  /** Searching such an object for `$.k1.k0` highlights node 2 and nothing
      else. */
  lemma NestedFirstMemberSearch(v: Json, k1: string, inner: Json, k0: string, a: Json)
    requires v.JObj? && |v.members| > 0 && v.members[0] == (k1, inner)
    requires inner.JObj? && |inner.members| > 0 && inner.members[0] == (k0, a)
    ensures |Build(v).nodes| > 2
    ensures PathSearch.Search(Build(v).nodes, "$." + k1 + "." + k0).1 == PathSearch.Found
    ensures forall k :: 0 <= k < |Build(v).nodes| ==>
      (PathSearch.Search(Build(v).nodes, "$." + k1 + "." + k0).0[k].highlighted <==> k == 2)
  {
    NestedFirstMemberPath(v, k1, inner, k0, a);
    PathSearch.BuildDistinctIds(v);
    PathSearch.SearchHighlightsFirstMatch(Build(v).nodes, "$." + k1 + "." + k0, 2);
  }

  /** The node shows the key `k0` (non-empty and free of `.`) followed by
      `": "` and the serialised primitive, at height 200. */
  lemma NestedFirstMemberLabel(v: Json, k1: string, inner: Json, k0: string, a: Json)
    requires v.JObj? && |v.members| > 0 && v.members[0] == (k1, inner)
    requires inner.JObj? && |inner.members| > 0 && inner.members[0] == (k0, a)
    requires IsPrimitive(a) && '.' !in k0 && k0 != []
    ensures |Build(v).nodes| > 2
    ensures Build(v).nodes[2].kind == PrimitiveKind
    ensures Build(v).nodes[2].text == k0 + ": " + Stringify(a)
    ensures Build(v).nodes[2].y == 200
  {
    var p1 := Paths.ChildPath(Paths.Root, false, k1);
    NestedFirstMember(v, k1, inner, k0, a);
    Paths.ObjectChildLabel(p1, k0);
  }

  // ---------------------------------------------------------------------
  // Small documents with every kind of value

  /** An object `{k1: {k2: a, k3: b}, k4: [{k5: c}]}`, a small document of
      the shape `{"user": {"id": 1, "name": "John"}, "items": [{"name": "item1"}]}`;
      the keys are left open since the counts do not depend on them. */
  function Sample(k1: string, k2: string, k3: string, k4: string, k5: string, a: Json, b: Json, c: Json): Json {
    JObj([(k1, JObj([(k2, a), (k3, b)])), (k4, JArr([JObj([(k5, c)])]))])
  }

  /** With primitive leaves the document has seven values, so seven nodes
      and six edges. */
  lemma SampleCounts(k1: string, k2: string, k3: string, k4: string, k5: string, a: Json, b: Json, c: Json)
    requires IsPrimitive(a) && IsPrimitive(b) && IsPrimitive(c)
    ensures |Build(Sample(k1, k2, k3, k4, k5, a, b, c)).nodes| == 7
    ensures |Build(Sample(k1, k2, k3, k4, k5, a, b, c)).edges| == 6
  {
    var user, item := JObj([(k2, a), (k3, b)]), JObj([(k5, c)]);
    var items := JArr([item]);
    var v := JObj([(k1, user), (k4, items)]);
    assert Size(user) == 3 by {
      assert SizeFrom(user, 2) == 0;
      assert SizeFrom(user, 1) == 1;
      assert SizeFrom(user, 0) == 2;
    }
    assert Size(item) == 2 by {
      assert SizeFrom(item, 1) == 0;
      assert SizeFrom(item, 0) == 1;
    }
    assert Size(items) == 3 by {
      assert SizeFrom(items, 1) == 0;
      assert SizeFrom(items, 0) == 2;
    }
    assert Size(v) == 7 by {
      assert SizeFrom(v, 2) == 0;
      assert SizeFrom(v, 1) == 3;
      assert SizeFrom(v, 0) == 6;
    }
  }

  /** The object inside the array under `k4` is node 5: after the root,
      the three values under `k1` and the array itself. It sits at path
      `$.k4[0]`, two levels down (y 200), and, as the first slot of a
      one-member object, half a slot to the left (x -100). */
  lemma SampleDeepNode(k1: string, k2: string, k3: string, k4: string, k5: string, a: Json, b: Json, c: Json)
    requires IsPrimitive(a) && IsPrimitive(b) && IsPrimitive(c)
    ensures |Build(Sample(k1, k2, k3, k4, k5, a, b, c)).nodes| > 5
    ensures Build(Sample(k1, k2, k3, k4, k5, a, b, c)).nodes[5].path == "$." + k4 + "[0]"
    ensures Build(Sample(k1, k2, k3, k4, k5, a, b, c)).nodes[5].kind == ObjectKind
    ensures Build(Sample(k1, k2, k3, k4, k5, a, b, c)).nodes[5].y == 200
    ensures Build(Sample(k1, k2, k3, k4, k5, a, b, c)).nodes[5].x == -100
  {
    var item := JObj([(k5, c)]);
    var itemsPath := Paths.ChildPath(Paths.Root, false, k4);
    SampleItemsSubtree(k1, k2, k3, k4, k5, a, b, c, itemsPath);
    ItemsFirst(item, itemsPath);
    ItemsPath(k4, itemsPath);
    assert KeyCount(item) == 1;
  }

  /** Index 0 under member `k4` of the root is at path `$.k4[0]`. */
  lemma ItemsPath(k4: string, itemsPath: string)
    requires itemsPath == Paths.ChildPath(Paths.Root, false, k4)
    ensures Paths.ChildPath(itemsPath, true, "0") == "$." + k4 + "[0]"
  {
    assert itemsPath == "$." + k4;
  }

  /** In the sample, node 5 is the first node after the array's own in the
      visit of the array under `k4`, which starts at id 4. */
  lemma SampleItemsSubtree(k1: string, k2: string, k3: string, k4: string, k5: string, a: Json, b: Json, c: Json,
                           itemsPath: string)
    requires IsPrimitive(a) && IsPrimitive(b) && IsPrimitive(c)
    requires itemsPath == Paths.ChildPath(Paths.Root, false, k4)
    ensures |Build(Sample(k1, k2, k3, k4, k5, a, b, c)).nodes| > 5
    ensures Build(Sample(k1, k2, k3, k4, k5, a, b, c)).nodes[5]
         == Visit(JArr([JObj([(k5, c)])]), itemsPath, Some(0), 1, 1, 4).nodes[1]
  {
    var user, items := JObj([(k2, a), (k3, b)]), JArr([JObj([(k5, c)])]);
    var v := JObj([(k1, user), (k4, items)]);
    assert Size(user) == 3 by {
      assert SizeFrom(user, 2) == 0;
      assert SizeFrom(user, 1) == 1;
    }
    assert Size(items) >= 2;
    assert SizeBefore(v, 1) == 3;
    assert ObjectKeys(v)[1] == k4 by {
      assert MemberKeys(v.members) == MemberKeys([(k1, user)]) + [k4];
    }
    Placement.VisitChildSubtree(v, Paths.Root, None, 0, 0, 0, 1, itemsPath, 4, 1, 4, 1);
  }

  /** The first node after a one-element array's own is its element, at
      index path `[0]`, one level further down, with sibling index 0. */
  lemma ItemsFirst(item: Json, itemsPath: string)
    ensures |Visit(JArr([item]), itemsPath, Some(0), 1, 1, 4).nodes| > 1
    ensures Visit(JArr([item]), itemsPath, Some(0), 1, 1, 4).nodes[1]
         == NewNode(5, item, Paths.ChildPath(itemsPath, true, "0"), 2, 0)
  {
    var items := JArr([item]);
    assert ObjectKeys(items)[0] == "0" by {
      assert Indices(1) == [Decimal.FromNat(0)];
    }
    Placement.VisitFirstChild(items, itemsPath, Some(0), 1, 1, 4);
  }

  /** An object with two primitive members has three values. */
  lemma PairSize(k1: string, a: Json, k2: string, b: Json)
    requires IsPrimitive(a) && IsPrimitive(b)
    ensures Size(JObj([(k1, a), (k2, b)])) == 3
  {
    var o := JObj([(k1, a), (k2, b)]);
    assert SizeFrom(o, 2) == 0;
    assert SizeFrom(o, 1) == 1;
    assert SizeFrom(o, 0) == 2;
  }

  /** An object with one primitive member has two values. */
  lemma SingleSize(k: string, a: Json)
    requires IsPrimitive(a)
    ensures Size(JObj([(k, a)])) == 2
  {
    var o := JObj([(k, a)]);
    assert SizeFrom(o, 1) == 0;
    assert SizeFrom(o, 0) == 1;
  }

  /** The shape of the document the input panel starts with:
      `{"user": {"id": a, "name": b, "address": {"city": c, "country": d}},
      "items": [{"name": e}, {"name": f}]}`, keys left open. */
  function StartDocument(user: string, id: string, name: string, address: string, city: string, country: string,
                         items: string, a: Json, b: Json, c: Json, d: Json, e: Json, f: Json): Json {
    JObj([(user, JObj([(id, a), (name, b), (address, JObj([(city, c), (country, d)]))])),
          (items, JArr([JObj([(name, e)]), JObj([(name, f)])]))])
  }

  /** With primitive leaves that document has twelve values, so twelve
      nodes and eleven edges. */
  lemma StartDocumentCounts(user: string, id: string, name: string, address: string, city: string, country: string,
                            items: string, a: Json, b: Json, c: Json, d: Json, e: Json, f: Json)
    requires IsPrimitive(a) && IsPrimitive(b) && IsPrimitive(c) && IsPrimitive(d) && IsPrimitive(e) && IsPrimitive(f)
    ensures |Build(StartDocument(user, id, name, address, city, country, items, a, b, c, d, e, f)).nodes| == 12
    ensures |Build(StartDocument(user, id, name, address, city, country, items, a, b, c, d, e, f)).edges| == 11
  {
    var addr := JObj([(city, c), (country, d)]);
    var u := JObj([(id, a), (name, b), (address, addr)]);
    var i1, i2 := JObj([(name, e)]), JObj([(name, f)]);
    var arr := JArr([i1, i2]);
    var v := JObj([(user, u), (items, arr)]);
    PairSize(city, c, country, d);
    SingleSize(name, e);
    SingleSize(name, f);
    assert Size(u) == 6 by {
      assert SizeFrom(u, 3) == 0;
      assert SizeFrom(u, 2) == 3;
      assert SizeFrom(u, 1) == 4;
      assert SizeFrom(u, 0) == 5;
    }
    assert Size(arr) == 5 by {
      assert SizeFrom(arr, 2) == 0;
      assert SizeFrom(arr, 1) == 2;
      assert SizeFrom(arr, 0) == 4;
    }
    assert Size(v) == 12 by {
      assert SizeFrom(v, 2) == 0;
      assert SizeFrom(v, 1) == 5;
      assert SizeFrom(v, 0) == 11;
    }
  }

  // ---------------------------------------------------------------------
  // A key with a `.` in it repeats a path

  /** In `{k1: {k0: y}, "k1.k0": x}` with primitive `y`, node 2 (for `y`)
      and node 3 (for `x`) have the same path `$.k1.k0`. */
  lemma RepeatedPath(v: Json, k1: string, inner: Json, k0: string, y: Json, x: Json)
    requires v.JObj? && |v.members| > 1 && v.members[0] == (k1, inner) && v.members[1] == (k1 + "." + k0, x)
    requires inner.JObj? && inner.members == [(k0, y)] && IsPrimitive(y)
    ensures |Build(v).nodes| > 3
    ensures Build(v).nodes[2].path == "$." + k1 + "." + k0
    ensures Build(v).nodes[3].path == "$." + k1 + "." + k0
  {
    NestedFirstMemberPath(v, k1, inner, k0, y);
    assert SizeBefore(v, 1) == 2 by {
      assert Child(v, 0) == inner;
      assert SizeFrom(inner, 1) == 0;
      assert Size(inner) == 2;
    }
    assert ObjectKeys(v)[1] == k1 + "." + k0 by {
      ObjectKeyAt(v, 1);
    }
    Placement.BuildChild(v, 1, 3);
    NestedFirstMember(v, k1, inner, k0, y);
    Paths.DottedKeyPath(Paths.Root, k1, k0);
  }

  /** Searching that object for `$.k1.k0` highlights node 2, the first of
      the two nodes with the path, and leaves node 3 plain. */
  lemma RepeatedPathSearch(v: Json, k1: string, inner: Json, k0: string, y: Json, x: Json)
    requires v.JObj? && |v.members| > 1 && v.members[0] == (k1, inner) && v.members[1] == (k1 + "." + k0, x)
    requires inner.JObj? && inner.members == [(k0, y)] && IsPrimitive(y)
    ensures |Build(v).nodes| > 3
    ensures Build(v).nodes[3].path == "$." + k1 + "." + k0
    ensures PathSearch.Search(Build(v).nodes, "$." + k1 + "." + k0).1 == PathSearch.Found
    ensures PathSearch.Search(Build(v).nodes, "$." + k1 + "." + k0).0[2].highlighted
    ensures !PathSearch.Search(Build(v).nodes, "$." + k1 + "." + k0).0[3].highlighted
  {
    RepeatedPath(v, k1, inner, k0, y, x);
    NestedFirstMemberSearch(v, k1, inner, k0, y);
  }
}
