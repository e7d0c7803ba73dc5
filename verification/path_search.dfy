/** `handleSearch`: find the first node whose path is the query and restyle
    every node so that exactly the nodes sharing the match's id are
    highlighted. */
module PathSearch {
  import opened Graph
  import opened Optional
  import opened TreeBuilder
  import TreeShape
  import Json
  import Paths
  import TopLevel

  /** Which toast the search raises: none for an empty query, the success
      toast after a match, the error toast when no node has the path. */
  datatype Outcome = Skipped | Found | NotFound

  /** `nodes.find((node) => node.data.path === query)`, as the position of
      the node found. */
  function FirstMatch(nodes: seq<Node>, query: string): (r: Option<nat>)
    ensures r.Some? ==> r.value < |nodes| && nodes[r.value].path == query
    ensures r.Some? ==> forall k :: 0 <= k < r.value ==> nodes[k].path != query
    ensures r.None? ==> forall k :: 0 <= k < |nodes| ==> nodes[k].path != query
  {
    if nodes == [] then None
    else if nodes[0].path == query then Some(0)
    else match FirstMatch(nodes[1..], query)
      case Some(k) => Some(k + 1)
      case None => None
  }

  /** The `nodes.map` of a successful search: each node keeps everything but
      its style, and is highlighted exactly when its id is `matchId`. */
  function Restyle(nodes: seq<Node>, matchId: nat): (r: seq<Node>)
    ensures |r| == |nodes|
    ensures forall k :: 0 <= k < |nodes| ==>
      && r[k].id == nodes[k].id && r[k].path == nodes[k].path && r[k].kind == nodes[k].kind
      && r[k].text == nodes[k].text && r[k].x == nodes[k].x && r[k].y == nodes[k].y
    ensures forall k :: 0 <= k < |nodes| ==> (r[k].highlighted <==> nodes[k].id == matchId)
  {
    if nodes == [] then []
    else [nodes[0].(highlighted := nodes[0].id == matchId)] + Restyle(nodes[1..], matchId)
  }

  /** `handleSearch` on the current nodes: the nodes afterwards and the
      toast raised. An empty query returns at once; a query no node has
      leaves the nodes as they were. */
  function Search(nodes: seq<Node>, query: string): (r: (seq<Node>, Outcome))
    ensures r.1 == Skipped <==> query == []
    ensures r.1 == NotFound <==> query != [] && forall k :: 0 <= k < |nodes| ==> nodes[k].path != query
    ensures r.1 != Found ==> r.0 == nodes
    ensures |r.0| == |nodes|
  {
    if query == [] then (nodes, Skipped)
    else match FirstMatch(nodes, query)
      case Some(m) => (Restyle(nodes, nodes[m].id), Found)
      case None => (nodes, NotFound)
  }

  /** No two nodes share an id. */
  predicate DistinctIds(nodes: seq<Node>) {
    forall a, b :: 0 <= a < |nodes| && 0 <= b < |nodes| && nodes[a].id == nodes[b].id ==> a == b
  }

  /** A successful search highlights the first node with the path and, when
      ids are distinct, no other node; every node keeps its id, path, kind,
      label and position. */
  lemma SearchHighlightsFirstMatch(nodes: seq<Node>, query: string, m: nat)
    requires query != [] && m < |nodes| && nodes[m].path == query
    requires forall k :: 0 <= k < m ==> nodes[k].path != query
    requires DistinctIds(nodes)
    ensures Search(nodes, query).1 == Found
    ensures forall k :: 0 <= k < |nodes| ==> (Search(nodes, query).0[k].highlighted <==> k == m)
    ensures forall k :: 0 <= k < |nodes| ==> Search(nodes, query).0[k] == nodes[k].(highlighted := k == m)
  {
    var f := FirstMatch(nodes, query);
    assert f == Some(m) by {
      if f.None? || f.value < m || f.value > m {
        assert false;
      }
    }
  }

  /** The first match depends on the paths alone, not on the styles. */
  lemma {:induction false} FirstMatchIgnoresStyle(a: seq<Node>, b: seq<Node>, query: string)
    requires |a| == |b| && forall k :: 0 <= k < |a| ==> a[k].path == b[k].path
    ensures FirstMatch(a, query) == FirstMatch(b, query)
  {
    if a != [] && a[0].path != query {
      FirstMatchIgnoresStyle(a[1..], b[1..], query);
    }
  }

  /** Restyling for the same id a second time changes nothing. */
  lemma RestyleAgain(nodes: seq<Node>, matchId: nat)
    ensures Restyle(Restyle(nodes, matchId), matchId) == Restyle(nodes, matchId)
  {
    var once := Restyle(nodes, matchId);
    var twice := Restyle(once, matchId);
    assert forall k :: 0 <= k < |nodes| ==> twice[k] == once[k];
  }

  /** Searching twice for the same path gives what searching once gives. */
  lemma SearchIdempotent(nodes: seq<Node>, query: string)
    ensures Search(Search(nodes, query).0, query) == Search(nodes, query)
  {
    if query != [] {
      match FirstMatch(nodes, query)
      case None =>
      case Some(m) =>
        var once := Restyle(nodes, nodes[m].id);
        FirstMatchIgnoresStyle(once, nodes, query);
        assert once[m].id == nodes[m].id;
        RestyleAgain(nodes, nodes[m].id);
    }
  }

  /** Number of highlighted nodes. */
  function CountHighlighted(nodes: seq<Node>): (n: nat)
    ensures n <= |nodes|
  {
    if nodes == [] then 0 else (if nodes[0].highlighted then 1 else 0) + CountHighlighted(nodes[1..])
  }

  /** Exactly one node is highlighted when the highlight marks position `m`
      and nothing else. */
  lemma {:induction false} CountOne(nodes: seq<Node>, m: nat)
    requires m < |nodes|
    requires forall k :: 0 <= k < |nodes| ==> (nodes[k].highlighted <==> k == m)
    ensures CountHighlighted(nodes) == 1
  {
    if m == 0 {
      CountNone(nodes[1..]);
    } else {
      CountOne(nodes[1..], m - 1);
    }
  }

  lemma {:induction false} CountNone(nodes: seq<Node>)
    requires forall k :: 0 <= k < |nodes| ==> !nodes[k].highlighted
    ensures CountHighlighted(nodes) == 0
  {
    if nodes != [] {
      CountNone(nodes[1..]);
    }
  }

  /** The nodes of one build have distinct ids. */
  lemma BuildDistinctIds(v: Json.Json)
    ensures DistinctIds(Build(v).nodes)
  {
    TreeShape.BuildIsTree(v);
  }

  /** When ids are distinct, a successful search leaves exactly one node
      highlighted, and that node alone takes the accent colour. */
  lemma SearchAccentsOne(nodes: seq<Node>, query: string, m: nat)
    requires query != [] && m < |nodes| && nodes[m].path == query
    requires forall k :: 0 <= k < m ==> nodes[k].path != query
    requires DistinctIds(nodes)
    ensures CountHighlighted(Search(nodes, query).0) == 1
    ensures forall k :: 0 <= k < |nodes| ==>
      (NodeColor(Search(nodes, query).0[k].kind, Search(nodes, query).0[k].highlighted) == Accent <==> k == m)
  {
    SearchHighlightsFirstMatch(nodes, query, m);
    var after := Search(nodes, query).0;
    CountOne(after, m);
    forall k | 0 <= k < |nodes|
      ensures NodeColor(after[k].kind, after[k].highlighted) == Accent <==> k == m
    {
      HighlightOverridesKind(after[k].kind, after[k].highlighted, after[k].kind, after[k].highlighted);
    }
  }

  /** Searching for `$` always finds and highlights the root. */
  lemma SearchRoot(v: Json.Json)
    ensures Search(Build(v).nodes, Paths.Root).1 == Found
    ensures CountHighlighted(Search(Build(v).nodes, Paths.Root).0) == 1
    ensures Search(Build(v).nodes, Paths.Root).0[0].highlighted
  {
    TopLevel.BuildRoot(v);
    BuildDistinctIds(v);
    SearchHighlightsFirstMatch(Build(v).nodes, Paths.Root, 0);
    SearchAccentsOne(Build(v).nodes, Paths.Root, 0);
  }
}
