# JSON tree visualiser: the tree builder and the path search

This project models the logic at the heart of the TreeVisualization component,
`src/components/TreeVisualization.tsx`, and proves properties of it. The component has two
parts:

- **The tree builder, `createNodesAndEdges`.** It walks a parsed JSON value depth first, in
  pre-order.
  - For every value it pushes one node. The node carries:
    - an id `node-<k>`, taken from a counter local to one build;
    - a path: `$`, then `.key` for an object member or `[i]` for an array element;
    - a kind: object, array or primitive;
    - a label: the last `.`-segment of the path, or the whole path when that segment is empty,
      followed for a primitive by `": "` and `JSON.stringify` of the value;
    - a position: `y = level * 100` and `x = sibling * 200 - keyCount * 200 / 2`.
  - For every value below the root it pushes one edge, from its parent.
- **The path search, `handleSearch`.**
  - An empty query does nothing.
  - Otherwise the search looks for the first node whose path equals the query.
  - When there is one, every node is restyled: the nodes that share the match's id are
    highlighted and all others are not. Highlighting gives a node the accent colour, which
    `getNodeColor` prefers over the colour of the node's kind.
  - When there is none, the nodes stay as they were.

The modules:

- **`Json`**: the parsed value, and the JavaScript built-ins the builder applies to it:
  - `typeof` and `Array.isArray`;
  - `Object.keys(obj || {})`, which for a string gives one key per UTF-16 code unit;
  - property access;
  - `JSON.stringify` of a primitive, together with a reader for a string literal (its
    round-trip partner).
- **`Decimal`**: the decimal text of counters and indices, with its parser.
- **`Paths`**: path steps and the label rule `path.split(".").pop() || path`. An independent
  `Split`/`Join` model of `split(".")` serves as a reference.
- **`Graph`**: nodes, edges, kinds, colours, the id texts and the x offset.
- **`TreeBuilder`**: the traversal, with the id counter threaded through it.
- **`TreeShape`**: the shape of the build: a pre-order tree with one edge into every
  non-root node, from its parent.
- **`Placement`**: where the traversal puts each child.
- **`TopLevel`**: the labels and positions of the root and of the top-level values.
- **`PathSearch`**: `handleSearch` and its properties.
- **`Examples`**: worked instances with symbolic keys:
  - a small document of the shape `{"user": {"id": 1, "name": "John"}, "items": [{"name": "item1"}]}`;
  - the document the input panel starts with (`SAMPLE_JSON`);
  - a document with a dotted key that repeats a path.

Two behaviours of the code are easy to overlook, and the model keeps both:

- **Paths are not unique within one build.** `{"a": {"b": 1}, "a.b": 2}` produces the path
  `$.a.b` twice (`Examples.RepeatedPath`). The search highlights the first node with that
  path and leaves the second plain (`Examples.RepeatedPathSearch`).
- **Only the empty query is skipped.** A query of blanks is searched like any other string
  (`PathSearch.Search`).

## Model

| member | source | states |
|---|---|---|
| Graph.KindOf | src/components/TreeVisualization.tsx:42-49 | A value is primitive exactly when it is neither an array nor an object. Otherwise its kind is array exactly for arrays and object exactly for objects. |
| Json.IsPrimitive | src/components/TreeVisualization.tsx:43 | No contract of its own. `Graph.KindOf` states that it holds exactly when the value is neither an array nor an object. |
| Json.KeyCount | src/components/TreeVisualization.tsx:57 | No contract of its own. `Graph.XOffsetCases` states the count per kind: elements, members, UTF-16 units of a string, and 0 for the other primitives. A string's count is its UTF-16 length, as in JavaScript's `length`: each character outside the Basic Multilingual Plane counts twice. `Json.Utf16LengthBmp` relates the string case to the character count. |
| Json.ObjectKeys | src/components/TreeVisualization.tsx:97 | There are as many keys as `KeyCount` says. `Json.ObjectKeyAt` states each key. |
| Json.Child | src/components/TreeVisualization.tsx:100 | `obj[key]` is structurally smaller than the container. The traversal's termination rests on this. |
| Json.EscapeChar | src/components/TreeVisualization.tsx:52 | A character is written as itself exactly when it is not a control character, a quote or a backslash. Otherwise its escape starts with a backslash. `Json.EscapeCharThenUnescape` is its inverse. |
| Json.EscapeBody | src/components/TreeVisualization.tsx:52 | The escaped body is at least as long as the string. `Json.UnescapeEscapeBody` reads it back. |
| Json.Stringify | src/components/TreeVisualization.tsx:52 | A serialised string is wrapped in quotes. `Json.StringifyRoundTrip` reads it back. |
| Paths.LastSegment | src/components/TreeVisualization.tsx:46 | No contract of its own. `Paths.LastSegmentIsDotFreeSuffix` and `Paths.LastSegmentIsLastPiece` state that it is the element `split(".").pop()` returns. |
| Paths.PathLabel | src/components/TreeVisualization.tsx:46 | No contract of its own. `Paths.PathLabelShape` and the label lemmas below state its values. |
| Graph.NodeLabel | src/components/TreeVisualization.tsx:46-52 | No contract of its own. `TopLevel.RootLabel`, `TopLevel.BuildMemberLabel`, `TopLevel.BuildElementLabel` and `Examples.NestedFirstMemberLabel` state the labels of built nodes. |
| Graph.XOffset | src/components/TreeVisualization.tsx:57 | No contract of its own. `Graph.XOffsetCases` relates it to the source's halved product. |
| Graph.NewNode | src/components/TreeVisualization.tsx:59-77 | No contract of its own. `Placement.VisitRoot`, `Placement.BuildChild` and `TopLevel.BuildRoot` state the nodes a build holds. |
| Graph.NodeIdText | src/components/TreeVisualization.tsx:41 | No contract of its own. `Graph.NodeIdTextInjective` states that it is injective. |
| Graph.EdgeIdText | src/components/TreeVisualization.tsx:81 | No contract of its own. `Graph.EdgeIdTextInjective` states that it is injective. |
| Json.Utf16LengthBmp | src/components/TreeVisualization.tsx:57 | A string's key count is its number of characters exactly when no character lies outside the Basic Multilingual Plane. |
| Json.ObjectKeyAt | src/components/TreeVisualization.tsx:97 | The key at position `i` is the member's own key for an object, and the decimal text of `i` for an array or a string. |
| Json.StringifyRoundTrip | src/components/TreeVisualization.tsx:52 | Reading back the literal that `JSON.stringify` writes for a string gives the original string. The escaping loses nothing. |
| Json.UnescapeEscapeBody | src/components/TreeVisualization.tsx:52 | The escaped body of any string decodes back to that string. |
| Json.EscapeCharThenUnescape | src/components/TreeVisualization.tsx:52 | Decoding one character's escape followed by any text gives that character in front of what the text decodes to. |
| Decimal.RoundTrip | src/components/TreeVisualization.tsx:41 | Parsing the decimal text of a counter value gives the value back. |
| Decimal.FromNatInjective | src/components/TreeVisualization.tsx:41 | Two counter values have the same decimal text exactly when they are equal. |
| Graph.NodeColor | src/components/TreeVisualization.tsx:23-33 | A node takes the accent colour exactly when it is highlighted. Otherwise arrays get the success colour and only arrays do, and primitives get the warning colour and only primitives do. |
| Graph.HighlightOverridesKind | src/components/TreeVisualization.tsx:24 | The highlight overrides the kind's colour. Two nodes that are not highlighted get the same colour exactly when they are of the same kind. |
| Graph.XOffsetCases | src/components/TreeVisualization.tsx:55-57 | The x offset agrees with the halved product `sibling * 200 - keyCount * 200 / 2`, which is exact. The offset is 200 per sibling slot, shifted left by 100 per array element, per object member or per UTF-16 unit of a string. Null, booleans and numbers are not shifted. |
| Graph.NodeIdTextInjective | src/components/TreeVisualization.tsx:41 | `node-<a>` equals `node-<b>` exactly when `a == b`. |
| Graph.EdgeIdTextInjective | src/components/TreeVisualization.tsx:81 | Two edges have the same id text `edge-<source>-<target>` exactly when they are the same edge. |
| Graph.DigitsThenDash | src/components/TreeVisualization.tsx:81 | A digit string followed by `-` splits off a longer text in exactly one way. |
| Paths.ChildPath | src/components/TreeVisualization.tsx:99 | A child's path is longer than its parent's, starts with the parent's path, and continues with `[` for an array child and with `.` for an object child. |
| Paths.LastSegmentIsDotFreeSuffix | src/components/TreeVisualization.tsx:46 | The last segment has no `.`, is a suffix of the path, and is either the whole path or preceded by a `.`. |
| Paths.LastSegmentIsLastPiece | src/components/TreeVisualization.tsx:46 | The last segment is the final element of the path's `split(".")`, the element `pop()` returns. |
| Paths.JoinSplit | src/components/TreeVisualization.tsx:46 | Joining the pieces of `split(".")` with `.` gives the path back. |
| Paths.SplitFromPiecesDotFree | src/components/TreeVisualization.tsx:46 | No piece of `split(".")` contains a `.`. |
| Paths.PathLabelShape | src/components/TreeVisualization.tsx:46 | A label is the whole path, or a non-empty text without a `.`. |
| Paths.ObjectChildLabel | src/components/TreeVisualization.tsx:46 | An object child whose key is non-empty and has no `.` is labelled with its key. |
| Paths.DottedKeyLabel | src/components/TreeVisualization.tsx:46 | A key that contains a `.` and does not end in one shows only the text after its last `.`. |
| Paths.EmptySegmentKeyLabel | src/components/TreeVisualization.tsx:46 | A key that is empty or ends in `.` leaves an empty last segment. The label then falls back to the whole path, for example `$.a.` for the key `"a."`. |
| Paths.ArrayChildLabel | src/components/TreeVisualization.tsx:46 | An array element's label is the parent's last segment followed by `[i]`. The index stays attached to the key before it. |
| Paths.RootElementLabel | src/components/TreeVisualization.tsx:99 | The top-level element `i` has the path `$[i]` and shows that whole path as its label. |
| Paths.DottedKeyPath | src/components/TreeVisualization.tsx:99 | The key `k1.k0` yields the same path as the key `k0` nested under the key `k1`. |
| TreeBuilder.Visit | src/components/TreeVisualization.tsx:40-102 | One call pushes one node per value in its subtree. It pushes one edge per node when it has a parent, and one fewer when it has none. The counter advances by the number of nodes pushed. |
| TreeBuilder.VisitChildren | src/components/TreeVisualization.tsx:96-102 | The children's loop pushes one node and one edge per value below the container, and advances the counter by that number. |
| TreeBuilder.Build | src/components/TreeVisualization.tsx:35-107 | A build has one node per value in the document and one edge fewer. |
| TreeShape.VisitIds | src/components/TreeVisualization.tsx:41 | The nodes of one call carry consecutive ids from the counter value it started with, in push order. |
| TreeShape.ChildrenIds | src/components/TreeVisualization.tsx:98-101 | The children's loop hands out consecutive ids in push order. |
| TreeShape.VisitHung | src/components/TreeVisualization.tsx:79-101 | A subtree visited below a parent has one edge per node, pushed in node order. Each edge enters its node from the outer parent, one level up with an extended path, or from the nearest earlier container one level up whose path the node's path extends. |
| TreeShape.ChildrenHung | src/components/TreeVisualization.tsx:96-101 | The children visited from any position on form such a forest below their container. |
| TreeShape.HungConcat | src/components/TreeVisualization.tsx:98 | Two forests pushed one after the other below the same parent form one forest. |
| TreeShape.RootedForest | src/components/TreeVisualization.tsx:105 | A container root with id 0, above a forest hung below it, is a tree in pre-order. |
| TreeShape.BuildIsTree | src/components/TreeVisualization.tsx:35-107 | The build is a tree in pre-order. Node `k` has id `k`. Edge `j` enters node `j + 1` from an earlier node, its parent. The parent is a container one level up, its path is extended by the child's, and every node between the two lies deeper. |
| TreeShape.TreeFacts | src/components/TreeVisualization.tsx:79-94 | In such a tree:<br>• no edge enters the root, and every other node has exactly one incoming edge;<br>• edges run from lower to higher ids and never leave a primitive;<br>• node id texts are pairwise distinct, and so are edge id texts. |
| TreeShape.HeightIsDepth | src/components/TreeVisualization.tsx:66 | With the root at height 0, a node's height is 100 times the number of edges between it and the root. |
| Placement.VisitRoot | src/components/TreeVisualization.tsx:59-66 | The first node a call pushes is its own, at the counter value, path, level and sibling index it was given. Its first edge comes from its parent. |
| Placement.ChildrenAt | src/components/TreeVisualization.tsx:97-101 | In what the key loop pushes from key `j` on, skipping the subtrees of keys `j..i-1` leaves exactly the nodes and edges the loop pushes from key `i` on, with the counter advanced by the size of those subtrees. |
| Placement.ChildrenStep | src/components/TreeVisualization.tsx:98-100 | Pushing the subtree of key `j` first shifts all that the loop from key `j + 1` pushes by that subtree's size, in both the nodes and the edges. |
| Placement.ChildrenSubtreeAt | src/components/TreeVisualization.tsx:97-101 | Over all the keys of a container, the subtree of key `i` starts after the subtrees of keys `0..i-1`, at the path for key `i` and with sibling index `i`. |
| Placement.VisitThenChildren | src/components/TreeVisualization.tsx:59-66 | A container's visit pushes its own node first, so its node `n + 1` is node `n` of its children's subtrees. |
| Placement.VisitChildSubtree | src/components/TreeVisualization.tsx:97-101 | At any depth, node `1 + SizeBefore(v, i) + m` of a container's visit is node `m` of the visit of its `i`-th child. That child is visited at its own path, with the container's id as parent, one level down, sibling index `i`, and the counter past the container's node and the subtrees of keys `0..i-1`. |
| Placement.ChildrenFirst | src/components/TreeVisualization.tsx:99-100 | The loop started at key `i` first pushes child `i`. That node has the path for key `i`, sibling index `i` and an edge from the container. |
| Placement.BuildChild | src/components/TreeVisualization.tsx:97-101 | In a build, the `i`-th value under a container root is the node whose id follows the root and the subtrees of keys `0..i-1`. It has path `$.key` or `$[i]`, level 1, sibling index `i`, and an edge from the root. |
| Placement.VisitFirstChild | src/components/TreeVisualization.tsx:98-100 | A non-empty container's first child is pushed right after it, with the next id, one level down and sibling index 0. |
| Placement.ChildrenSubtree | src/components/TreeVisualization.tsx:100 | The loop started at key `i` first pushes the whole subtree of child `i`. |
| Placement.BuildFirstSubtree | src/components/TreeVisualization.tsx:105 | The subtree of a container root's first value immediately follows the root node. |
| Placement.SizeSplit | src/components/TreeVisualization.tsx:98 | The values under the keys before `i` and those from `i` on make up all the values under a container. |
| TopLevel.BuildRoot | src/components/TreeVisualization.tsx:105 | The root node has id 0, path `$`, the kind of the document, height 0 and x offset `-100 * keyCount`. Its label is `$`, followed by `": "` and the value for a primitive. |
| TopLevel.RootLabel | src/components/TreeVisualization.tsx:46-52 | The root's label is its whole path `$`, followed by `": "` and the value for a primitive. |
| TopLevel.BuildMemberLabel | src/components/TreeVisualization.tsx:46-52 | A top-level member with a non-empty key free of `.` has the path `$.key` and height 100. It is labelled with its key, followed by `": "` and the value for a primitive. |
| TopLevel.BuildElementLabel | src/components/TreeVisualization.tsx:46-52 | The top-level array element `i` has the path `$[i]`. It is labelled `$[i]`, followed by `": "` and the value for a primitive. |
| PathSearch.FirstMatch | src/components/TreeVisualization.tsx:123 | The position found holds the query's path and no earlier position does. When nothing is found, no node has the path. |
| PathSearch.Restyle | src/components/TreeVisualization.tsx:126-133 | Restyling keeps the length, and every node's id, path, kind, label and position. A node ends up highlighted exactly when its id is the match's id. |
| PathSearch.Search | src/components/TreeVisualization.tsx:120-139 | The search is skipped exactly for the empty query. It reports not-found exactly when the query is non-empty and no node has the path. When it does not find, the nodes are unchanged. The length is always kept. |
| PathSearch.SearchHighlightsFirstMatch | src/components/TreeVisualization.tsx:123-133 | With distinct ids, a search whose query is first held by node `m` finds it. Node `m` is highlighted and no other node is, which clears earlier highlights. Every node is otherwise unchanged. |
| PathSearch.FirstMatchIgnoresStyle | src/components/TreeVisualization.tsx:123 | The match depends on the paths alone, so highlighting does not move it. |
| PathSearch.RestyleAgain | src/components/TreeVisualization.tsx:126-133 | Restyling twice for the same id gives what restyling once gives. |
| PathSearch.SearchIdempotent | src/components/TreeVisualization.tsx:120-139 | Searching twice for the same query gives what searching once gives. |
| PathSearch.CountOne | src/components/TreeVisualization.tsx:131 | When exactly position `m` is highlighted, one node is highlighted. |
| PathSearch.CountNone | src/components/TreeVisualization.tsx:131 | When nothing is highlighted, the count of highlighted nodes is 0. |
| PathSearch.BuildDistinctIds | src/components/TreeVisualization.tsx:41 | No two nodes of one build share an id. |
| PathSearch.SearchAccentsOne | src/components/TreeVisualization.tsx:130 | With distinct ids, a successful search leaves exactly one node highlighted. That node alone takes the accent colour. |
| PathSearch.SearchRoot | src/components/TreeVisualization.tsx:120-135 | Searching a build for `$` always succeeds, and highlights the root and nothing else. |
| Examples.NestedFirstMember | src/components/TreeVisualization.tsx:98-100 | In `{k1: {k0: a, ...}, ...}`, node 2 is `a`, two levels down, with sibling index 0 and path `$.k1.k0`. |
| Examples.NestedFirstMemberPath | src/components/TreeVisualization.tsx:99 | Node 2 has the path `$.k1.k0`, and nodes 0 and 1 do not. |
| Examples.NestedFirstMemberSearch | src/components/TreeVisualization.tsx:123-131 | Searching that document for `$.k1.k0` finds node 2 and highlights it alone. |
| Examples.NestedFirstMemberLabel | src/components/TreeVisualization.tsx:52 | When `a` is primitive and `k0` is non-empty and free of `.`, node 2 is a primitive labelled `k0: <value>` at height 200. |
| Examples.SampleCounts | src/components/TreeVisualization.tsx:35-107 | A small document of the shape `{"user": {"id": 1, "name": "John"}, "items": [{"name": "item1"}]}`, with primitive leaves, yields seven nodes and six edges. |
| Examples.SampleDeepNode | src/components/TreeVisualization.tsx:35-107 | In that document, the object inside the `items` array is node 5. It has path `$.items[0]`, is an object, and sits at y 200 and x -100. |
| Examples.SampleItemsSubtree | src/components/TreeVisualization.tsx:97-101 | In that document, node 5 is the node after the array's own in the visit of `items`, which starts at id 4. |
| Examples.ItemsFirst | src/components/TreeVisualization.tsx:97-100 | The node after a one-element array's own is its element, at index path `[0]`, one level further down, with sibling index 0. |
| Examples.StartDocumentCounts | src/components/JSONInput.tsx:11-24 | The document the input panel starts with has twelve values, so its build has twelve nodes and eleven edges. Its keys are left open and its leaves are primitive. |
| Examples.RepeatedPath | src/components/TreeVisualization.tsx:99 | In `{k1: {k0: y}, "k1.k0": x}`, nodes 2 and 3 have the same path `$.k1.k0`. |
| Examples.RepeatedPathSearch | src/components/TreeVisualization.tsx:123 | Searching that document for `$.k1.k0` highlights node 2, the first node with the path, and leaves node 3 plain. |

## Left out

- **React state and effects** (`useState`, `useNodesState`, `useEffect`, `useCallback`), the
  ReactFlow rendering, drag handlers and toasts. A search's toast is its `Outcome` value.
- **Style objects and colour strings.** The highlight is a flag, and each colour is a value of
  `Color`.
- **Parsing** (`JSON.parse` in `src/components/JSONInput.tsx`). The builder takes a parsed
  value. Of `src/components/JSONInput.tsx` only the shape of the starting document is used.
  `src/pages/Index.tsx` is not part of this model.
- **Number formatting.** A number carries the decimal text `JSON.stringify` would write for it;
  converting floating point to decimal is not modelled.
- **Object key order.** An object is an ordered member sequence. `Object.keys` reorders
  integer-like keys, and that reordering is not modelled. Duplicate keys, which the parser
  would merge, are assumed absent.
- **Lone surrogates.** A string is a sequence of Unicode scalar values. Lone UTF-16 surrogates,
  and `JSON.stringify`'s `\u` escapes for them, cannot be represented.
- **Build reruns.** The builder runs again whenever the data changes, and there is no state
  between builds to model.
- TreeBuilder.Visit: its contract states the counts of one call. The order and contents of
  what it pushes are stated by `TreeShape.BuildIsTree`, `Placement.BuildChild`,
  `Placement.VisitChildSubtree` and the `TopLevel` lemmas.
- Paths.RootElementLabel, TopLevel.BuildMemberLabel, TopLevel.BuildElementLabel: they state
  labels for the top-level values, the ones below the root. For deeper values,
  `Placement.VisitChildSubtree` places the visit of any child at any depth, and
  `Paths.ObjectChildLabel` and `Paths.ArrayChildLabel` give their labels for any parent path.
- TopLevel.BuildMemberLabel: it requires a non-empty key without `.`. The other keys are
  covered, for any parent path, by `Paths.DottedKeyLabel` (a `.` inside the key) and
  `Paths.EmptySegmentKeyLabel` (the empty key, or a key ending in `.`).
