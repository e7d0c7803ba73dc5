/** The records the tree builder hands to the renderer: nodes with a kind,
    label, path and position, and parent-to-child edges; plus the id texts
    and colours the renderer derives from them. */
module Graph {
  import opened Json
  import Paths
  import Decimal

  datatype Kind = ObjectKind | ArrayKind | PrimitiveKind

  /** `text` is the label shown on the node; `highlighted` stands for the
      highlight background and white border. */
  datatype Node = Node(
    id: nat,
    path: string,
    kind: Kind,
    text: string,
    x: int,
    y: int,
    highlighted: bool)

  /** An edge from the node with id `source` to the node with id `target`. */
  datatype Edge = Edge(source: nat, target: nat)

  /** Classification by `Array.isArray` and `typeof obj !== "object" || obj === null`. */
  function KindOf(v: Json): (k: Kind)
    ensures k == PrimitiveKind <==> IsPrimitive(v)
    ensures k == ArrayKind <==> v.JArr?
    ensures k == ObjectKind <==> v.JObj?
  {
    if IsPrimitive(v) then PrimitiveKind
    else if v.JArr? then ArrayKind
    else ObjectKind
  }

  /** The text a node shows: the path label, followed for a primitive by
      `": "` and the serialised value. */
  function NodeLabel(path: string, v: Json): string {
    if IsPrimitive(v) then Paths.PathLabel(path) + ": " + Stringify(v)
    else Paths.PathLabel(path)
  }

  /** The horizontal position: the sibling slot, shifted left by half of
      `Object.keys(obj || {}).length` slots. Slots are 200 apart
      (`xSpacing`) and levels 100 apart (`ySpacing`); half of
      `keyCount * 200` is exactly `keyCount * 100`, which keeps positions
      linear in the counts. */
  function XOffset(sibling: nat, v: Json): int {
    sibling * 200 - KeyCount(v) * 100
  }

  /** The shift is half a slot per element of an array, per member of an
      object and per UTF-16 unit of a string; other primitives stay on
      their slot. */
  lemma XOffsetCases(sibling: nat, v: Json)
    ensures XOffset(sibling, v) == sibling * 200 - (KeyCount(v) * 200) / 2
    ensures v.JArr? ==> XOffset(sibling, v) == 200 * sibling - 100 * |v.elems|
    ensures v.JObj? ==> XOffset(sibling, v) == 200 * sibling - 100 * |v.members|
    ensures v.JStr? ==> XOffset(sibling, v) == 200 * sibling - 100 * Utf16Length(v.s)
    ensures v.JNull? || v.JBool? || v.JNum? ==> XOffset(sibling, v) == 200 * sibling
  {
  }

  /** The node one traversal step pushes, before any highlight. */
  function NewNode(id: nat, v: Json, path: string, level: nat, sibling: nat): Node {
    Node(id, path, KindOf(v), NodeLabel(path, v), XOffset(sibling, v), level * 100, false)
  }

  // ---------------------------------------------------------------------
  // Colours

  datatype Color = Accent | PrimaryColor | SuccessColor | WarningColor

  /** Background colour of a node: the accent when highlighted, otherwise one
      colour per kind. */
  function NodeColor(kind: Kind, highlighted: bool): (c: Color)
    ensures c == Accent <==> highlighted
    ensures !highlighted ==> (c == SuccessColor <==> kind == ArrayKind)
    ensures !highlighted ==> (c == WarningColor <==> kind == PrimitiveKind)
  {
    if highlighted then Accent
    else match kind
      case ObjectKind => PrimaryColor
      case ArrayKind => SuccessColor
      case PrimitiveKind => WarningColor
  }

  /** Highlight overrides the kind colour, and without it the colour tells the
      kinds apart and is never the accent. */
  lemma HighlightOverridesKind(k1: Kind, h1: bool, k2: Kind, h2: bool)
    ensures NodeColor(k1, h1) == Accent <==> h1
    ensures !h1 && !h2 ==> (NodeColor(k1, h1) == NodeColor(k2, h2) <==> k1 == k2)
  {
  }

  // ---------------------------------------------------------------------
  // Id texts

  /** The id text `node-<k>`. */
  function NodeIdText(k: nat): string {
    "node-" + Decimal.FromNat(k)
  }

  /** The id text `edge-<source id>-<target id>`. */
  function EdgeIdText(e: Edge): string {
    "edge-" + NodeIdText(e.source) + "-" + NodeIdText(e.target)
  }

  lemma NodeIdTextInjective(a: nat, b: nat)
    ensures NodeIdText(a) == NodeIdText(b) <==> a == b
  {
    if NodeIdText(a) == NodeIdText(b) {
      var da, db := Decimal.FromNat(a), Decimal.FromNat(b);
      assert da == NodeIdText(a)[5..];
      assert db == NodeIdText(b)[5..];
      Decimal.FromNatInjective(a, b);
    }
  }

  lemma DashAfter(d: string, u: string)
    ensures (d + "-" + u)[|d|] == '-'
    ensures forall k :: 0 <= k < |d| ==> (d + "-" + u)[k] == d[k]
  {
  }

  /** A digit string followed by `-` can be split off unambiguously. */
  lemma DigitsThenDash(d1: string, u1: string, d2: string, u2: string)
    requires forall k :: 0 <= k < |d1| ==> Decimal.IsDigit(d1[k])
    requires forall k :: 0 <= k < |d2| ==> Decimal.IsDigit(d2[k])
    requires d1 + "-" + u1 == d2 + "-" + u2
    ensures d1 == d2 && u1 == u2
  {
    DashAfter(d1, u1);
    DashAfter(d2, u2);
    if |d1| < |d2| || |d2| < |d1| {
      assert false;
    }
    var w := d1 + "-" + u1;
    assert d1 == w[..|d1|];
    assert d2 == (d2 + "-" + u2)[..|d2|];
    assert u1 == w[|d1| + 1..];
    assert u2 == (d2 + "-" + u2)[|d2| + 1..];
  }

  /** An edge id text is a fixed ten-character prefix, the source's digits,
      a dash and the target's node id text. */
  lemma EdgeIdTextSplit(e: Edge)
    ensures EdgeIdText(e) == "edge-node-" + (Decimal.FromNat(e.source) + "-" + NodeIdText(e.target))
  {
  }

  lemma DropPrefix(p: string, a: string, b: string)
    requires p + a == p + b
    ensures a == b
  {
    assert a == (p + a)[|p|..];
    assert b == (p + b)[|p|..];
  }

  /** Distinct edges have distinct id texts. */
  lemma EdgeIdTextInjective(e1: Edge, e2: Edge)
    ensures EdgeIdText(e1) == EdgeIdText(e2) <==> e1 == e2
  {
    if EdgeIdText(e1) == EdgeIdText(e2) {
      var s1, t1 := Decimal.FromNat(e1.source), NodeIdText(e1.target);
      var s2, t2 := Decimal.FromNat(e2.source), NodeIdText(e2.target);
      EdgeIdTextSplit(e1);
      EdgeIdTextSplit(e2);
      DropPrefix("edge-node-", s1 + "-" + t1, s2 + "-" + t2);
      DigitsThenDash(s1, t1, s2, t2);
      Decimal.FromNatInjective(e1.source, e2.source);
      NodeIdTextInjective(e1.target, e2.target);
    }
  }
}
