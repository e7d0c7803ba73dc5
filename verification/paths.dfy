/** Paths such as `$.user.items[0].name` and the label text a node shows:
    `path.split(".").pop() || path`. */
module Paths {
  import Decimal

  /** The path of the root value. */
  const Root: string := "$"

  /** What a step to the child reached by `key` appends to the path:
      `[${key}]` for an array, `.${key}` for an object. */
  function Step(isArray: bool, key: string): (t: string)
    ensures |t| > 0 && t[0] == (if isArray then '[' else '.')
    ensures isArray ==> |t| == |key| + 2 && t[1..|t| - 1] == key && t[|t| - 1] == ']'
    ensures !isArray ==> t[1..] == key
  {
    if isArray then "[" + key + "]" else "." + key
  }

  /** Path of the child reached by `key`. */
  function ChildPath(path: string, isArray: bool, key: string): (p: string)
    ensures |p| > |path| && p[..|path|] == path
    ensures p[|path|] == (if isArray then '[' else '.')
  {
    path + Step(isArray, key)
  }

  /** The text after the final `.` of `p`, or all of `p` when it has no `.`:
      the last element of `p.split(".")`. */
  function LastSegment(p: string): string {
    if p == [] then []
    else if p[|p| - 1] == '.' then []
    else LastSegment(p[..|p| - 1]) + [p[|p| - 1]]
  }

  /** `path.split(".").pop() || path`: the last segment, or the whole path
      when that segment is the empty string. */
  function PathLabel(path: string): string {
    var seg := LastSegment(path);
    if seg == [] then path else seg
  }

  /** LastSegment is the longest suffix of `p` without a `.`. */
  lemma {:induction false} LastSegmentIsDotFreeSuffix(p: string)
    ensures '.' !in LastSegment(p)
    ensures |LastSegment(p)| <= |p| && p[|p| - |LastSegment(p)|..] == LastSegment(p)
    ensures |LastSegment(p)| == |p| || p[|p| - |LastSegment(p)| - 1] == '.'
  {
    if p != [] && p[|p| - 1] != '.' {
      var q := p[..|p| - 1];
      LastSegmentIsDotFreeSuffix(q);
      assert p[|p| - |LastSegment(p)|..] == p[|q| - |LastSegment(q)|..|q|] + [p[|p| - 1]];
    }
  }

  /** The label is either a non-empty text without a `.` or the whole path. */
  lemma PathLabelShape(path: string)
    ensures PathLabel(path) == path || ('.' !in PathLabel(path) && PathLabel(path) != [])
  {
    LastSegmentIsDotFreeSuffix(path);
  }

  lemma {:induction false} LastSegmentAppend(a: string, b: string)
    ensures '.' in b ==> LastSegment(a + b) == LastSegment(b)
    ensures '.' !in b ==> LastSegment(a + b) == LastSegment(a) + b
  {
    if b == [] {
      assert a + b == a;
    } else {
      var c := b[|b| - 1];
      var b' := b[..|b| - 1];
      assert (a + b)[..|a + b| - 1] == a + b';
      assert b == b' + [c];
      if c != '.' {
        LastSegmentAppend(a, b');
        assert '.' in b ==> '.' in b';
      }
    }
  }

  /** Whatever precedes a `.` does not matter to the last segment. */
  lemma LastSegmentAfterDot(a: string, b: string)
    ensures LastSegment(a + "." + b) == LastSegment(b)
  {
    LastSegmentAppend(a + ".", b);
    if '.' !in b {
      LastSegmentAppend([], b);
      assert [] + b == b;
    }
  }

  /** An object child's label is its key, provided the key is non-empty and
      has no `.` in it. */
  lemma ObjectChildLabel(path: string, key: string)
    requires '.' !in key && key != []
    ensures PathLabel(ChildPath(path, false, key)) == key
  {
    LastSegmentAfterDot(path, key);
    assert path + "." + key == ChildPath(path, false, key);
    LastSegmentAppend([], key);
    assert [] + key == key;
  }

  /** A key with a `.` in it yields the same path as two nested keys:
      paths do not tell `{"a.b": x}` from `{"a": {"b": x}}`. */
  lemma DottedKeyPath(path: string, k1: string, k0: string)
    ensures ChildPath(path, false, k1 + "." + k0) == ChildPath(ChildPath(path, false, k1), false, k0)
  {
    assert path + ("." + (k1 + "." + k0)) == (path + ("." + k1)) + ("." + k0);
  }

  /** A key with a `.` in it shows only its own last segment. */
  lemma DottedKeyLabel(path: string, key: string)
    requires '.' in key && LastSegment(key) != []
    ensures PathLabel(ChildPath(path, false, key)) == LastSegment(key)
  {
    LastSegmentAfterDot(path, key);
    assert path + "." + key == ChildPath(path, false, key);
  }

  /** A key that is empty or ends in `.` leaves an empty last segment, so
      the label falls back to the whole path: `$.a.` for the key `"a."`. */
  lemma EmptySegmentKeyLabel(path: string, key: string)
    requires key == [] || key[|key| - 1] == '.'
    ensures PathLabel(ChildPath(path, false, key)) == path + "." + key
  {
    var p := ChildPath(path, false, key);
    assert p == path + "." + key;
    assert p[|p| - 1] == '.';
  }

  /** An array index stays attached to the segment before it:
      the label of `$.items[3]` is `items[3]`. */
  lemma ArrayChildLabel(path: string, i: nat)
    ensures PathLabel(ChildPath(path, true, Decimal.FromNat(i)))
         == LastSegment(path) + Step(true, Decimal.FromNat(i))
  {
    var d := Decimal.FromNat(i);
    assert '.' !in d by {
      assert forall k :: 0 <= k < |d| ==> Decimal.IsDigit(d[k]);
    }
    var tail := Step(true, d);
    assert '.' !in tail by {
      assert forall k :: 1 <= k < |tail| - 1 ==> tail[k] == d[k - 1];
    }
    LastSegmentAppend(path, tail);
  }

  /** The root path has no `.`, so it is its own last segment. */
  lemma RootSegment()
    ensures LastSegment(Root) == Root
  {
    assert Root[..0] == [];
  }

  /** A top-level array element is labelled with its whole path `$[i]`. */
  lemma RootElementLabel(i: nat)
    ensures ChildPath(Root, true, Decimal.FromNat(i)) == "$[" + Decimal.FromNat(i) + "]"
    ensures PathLabel(ChildPath(Root, true, Decimal.FromNat(i))) == "$[" + Decimal.FromNat(i) + "]"
  {
    var d := Decimal.FromNat(i);
    var p := ChildPath(Root, true, d);
    ArrayChildLabel(Root, i);
    RootSegment();
    assert p == Root + Step(true, d);
    assert Root + Step(true, d) == "$[" + d + "]";
  }

  // ---------------------------------------------------------------------
  // `split(".")` as an independent reference for LastSegment

  /** Scans `p` left to right; `piece` is the text read since the last `.`. */
  function SplitFrom(p: string, piece: string): (pieces: seq<string>)
    ensures |pieces| >= 1
  {
    if p == [] then [piece]
    else if p[0] == '.' then [piece] + SplitFrom(p[1..], [])
    else SplitFrom(p[1..], piece + [p[0]])
  }

  /** No piece contains the separator. */
  lemma {:induction false} SplitFromPiecesDotFree(p: string, piece: string)
    requires '.' !in piece
    ensures forall k :: 0 <= k < |SplitFrom(p, piece)| ==> '.' !in SplitFrom(p, piece)[k]
  {
    if p != [] {
      if p[0] == '.' {
        SplitFromPiecesDotFree(p[1..], []);
      } else {
        SplitFromPiecesDotFree(p[1..], piece + [p[0]]);
      }
    }
  }

  /** `p.split(".")`: the pieces between the dots, left to right. */
  function Split(p: string): seq<string> {
    SplitFrom(p, [])
  }

  /** `pieces.join(".")`. */
  function Join(pieces: seq<string>): string
    requires |pieces| >= 1
  {
    if |pieces| == 1 then pieces[0] else pieces[0] + "." + Join(pieces[1..])
  }

  lemma {:induction false} JoinSplitFrom(p: string, piece: string)
    requires '.' !in piece
    ensures Join(SplitFrom(p, piece)) == piece + p
  {
    if p == [] {
      assert piece + p == piece;
    } else if p[0] == '.' {
      JoinSplitFrom(p[1..], []);
      assert [] + p[1..] == p[1..];
      assert piece + "." + p[1..] == piece + p;
    } else {
      JoinSplitFrom(p[1..], piece + [p[0]]);
      assert piece + [p[0]] + p[1..] == piece + p;
    }
  }

  /** Joining the pieces with `.` gives back the path. */
  lemma JoinSplit(p: string)
    ensures Join(Split(p)) == p
  {
    JoinSplitFrom(p, []);
    assert [] + p == p;
  }

  /** Without a `.` the last segment is the whole string. */
  lemma LastSegmentNoDot(p: string)
    requires '.' !in p
    ensures LastSegment(p) == p
  {
    LastSegmentAppend([], p);
    assert [] + p == p;
  }

  lemma MoveFirst(a: string, p: string)
    requires p != []
    ensures a + [p[0]] + p[1..] == a + p
  {
    assert p == [p[0]] + p[1..];
  }

  lemma LastAfterFirst(piece: string, rest: seq<string>)
    requires |rest| >= 1
    ensures ([piece] + rest)[|rest|] == rest[|rest| - 1]
  {
  }

  lemma {:induction false} LastPieceFrom(p: string, piece: string)
    requires '.' !in piece
    ensures SplitFrom(p, piece)[|SplitFrom(p, piece)| - 1] == LastSegment(piece + p)
  {
    if p == [] {
      assert piece + p == piece;
      LastSegmentNoDot(piece);
    } else if p[0] == '.' {
      var rest := SplitFrom(p[1..], []);
      LastPieceFrom(p[1..], []);
      LastAfterFirst(piece, rest);
      LastSegmentAfterDot(piece, p[1..]);
      MoveFirst(piece, p);
      assert [] + p[1..] == p[1..];
    } else {
      var longer := piece + [p[0]];
      assert '.' !in longer;
      LastPieceFrom(p[1..], longer);
      MoveFirst(piece, p);
    }
  }

  /** LastSegment is the last piece of `split(".")`, the element `pop()` returns. */
  lemma LastSegmentIsLastPiece(p: string)
    ensures LastSegment(p) == Split(p)[|Split(p)| - 1]
  {
    LastPieceFrom(p, []);
    assert [] + p == p;
  }
}
