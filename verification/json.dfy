/** A parsed JSON value and the few JavaScript built-ins the tree builder
    applies to it: `typeof`/`Array.isArray` classification, `Object.keys`
    (after the `obj || {}` guard), property access by key, and
    `JSON.stringify` of a primitive. */
module Json {
  import Decimal
  import opened Optional

  /** Object members keep the order the parser delivered them in. A number
      carries the decimal text `JSON.stringify` writes for it. */
  datatype Json =
    | JNull
    | JBool(b: bool)
    | JNum(text: string)
    | JStr(s: string)
    | JArr(elems: seq<Json>)
    | JObj(members: seq<(string, Json)>)

  /** `typeof obj !== "object" || obj === null`: everything but arrays and objects. */
  predicate IsPrimitive(v: Json) {
    !(v.JArr? || v.JObj?)
  }

  /** Number of UTF-16 code units of one character: two for characters
      outside the Basic Multilingual Plane. */
  function Utf16Units(c: char): (n: nat)
    ensures 1 <= n <= 2
  {
    if c as int > 0xFFFF then 2 else 1
  }

  /** JavaScript's `length` of a string: it counts UTF-16 code units. */
  function Utf16Length(s: string): (n: nat)
    ensures |s| <= n <= 2 * |s|
  {
    if s == [] then 0 else Utf16Units(s[0]) + Utf16Length(s[1..])
  }

  /** The length counts characters exactly when none lies outside the Basic
      Multilingual Plane. */
  lemma {:induction false} Utf16LengthBmp(s: string)
    ensures Utf16Length(s) == |s| <==> forall k :: 0 <= k < |s| ==> s[k] as int <= 0xFFFF
  {
    if s != [] {
      Utf16LengthBmp(s[1..]);
      assert forall k :: 1 <= k < |s| ==> s[k] == s[1..][k - 1];
    }
  }

  /** The decimal indices `"0"`, `"1"`, ..., of `n` positions. */
  function Indices(n: nat): (keys: seq<string>)
    ensures |keys| == n
  {
    if n == 0 then [] else Indices(n - 1) + [Decimal.FromNat(n - 1)]
  }

  /** The keys of the members of an object, in member order. */
  function MemberKeys(ms: seq<(string, Json)>): (keys: seq<string>)
    ensures |keys| == |ms|
  {
    if ms == [] then [] else MemberKeys(ms[..|ms| - 1]) + [ms[|ms| - 1].0]
  }

  /** `Object.keys(obj || {}).length`, the count the layout centres on:
      the elements of an array, the members of an object, the UTF-16 units
      of a string, and nothing for the other primitives. */
  function KeyCount(v: Json): nat {
    match v
    case JArr(es) => |es|
    case JObj(ms) => |ms|
    case JStr(s) => Utf16Length(s)
    case _ => 0
  }

  /** `Object.keys(obj || {})`. Arrays list their indices, objects their
      keys, and a string is boxed to a String object whose keys are the
      indices of its UTF-16 code units. Every other primitive (and the
      falsy ones that `|| {}` replaces) has no keys. */
  function ObjectKeys(v: Json): (keys: seq<string>)
    ensures |keys| == KeyCount(v)
  {
    match v
    case JArr(es) => Indices(|es|)
    case JObj(ms) => MemberKeys(ms)
    case JStr(s) => Indices(Utf16Length(s))
    case _ => []
  }

  lemma {:induction false} IndicesAt(n: nat, i: nat)
    requires i < n
    ensures Indices(n)[i] == Decimal.FromNat(i)
  {
    if i < n - 1 {
      IndicesAt(n - 1, i);
    }
  }

  lemma {:induction false} MemberKeysAt(ms: seq<(string, Json)>, i: nat)
    requires i < |ms|
    ensures MemberKeys(ms)[i] == ms[i].0
  {
    if i < |ms| - 1 {
      MemberKeysAt(ms[..|ms| - 1], i);
    }
  }

  /** The key at position `i`: the decimal index for an array or a string,
      the member's own key for an object. */
  lemma ObjectKeyAt(v: Json, i: nat)
    requires i < KeyCount(v)
    ensures v.JObj? ==> ObjectKeys(v)[i] == v.members[i].0
    ensures v.JArr? || v.JStr? ==> ObjectKeys(v)[i] == Decimal.FromNat(i)
  {
    match v
    case JArr(es) => IndicesAt(|es|, i);
    case JObj(ms) => MemberKeysAt(ms, i);
    case JStr(s) => IndicesAt(Utf16Length(s), i);
    case _ =>
  }

  /** `obj[keys[i]]` for a container: its i-th element or member value. */
  function Child(v: Json, i: nat): (c: Json)
    requires !IsPrimitive(v) && i < KeyCount(v)
    ensures c < v
  {
    if v.JArr? then v.elems[i] else v.members[i].1
  }

  /** Number of values in `v`: itself plus every nested element or member. */
  function Size(v: Json): (n: nat)
    decreases v, KeyCount(v) + 1
    ensures n >= 1
    ensures IsPrimitive(v) ==> n == 1
  {
    if IsPrimitive(v) then 1 else 1 + SizeFrom(v, 0)
  }

  /** Number of values in the children `i..` of a container. */
  function SizeFrom(v: Json, i: nat): (n: nat)
    requires !IsPrimitive(v) && i <= KeyCount(v)
    decreases v, KeyCount(v) - i
    ensures n >= KeyCount(v) - i
  {
    if i == KeyCount(v) then 0 else Size(Child(v, i)) + SizeFrom(v, i + 1)
  }

  // ---------------------------------------------------------------------
  // JSON.stringify of a primitive

  function HexDigit(d: nat): (c: char)
    requires d < 16
  {
    "0123456789abcdef"[d]
  }

  /** The escape QuoteJSONString (ECMA-262) writes for one character. */
  function EscapeChar(c: char): (e: string)
    ensures c as int >= 0x20 && c != '"' && c != '\\' <==> e == [c]
    ensures e != [c] ==> |e| > 1 && e[0] == '\\'
  {
    var n := c as int;
    if n == 0x22 then ['\\', '"']
    else if n == 0x5C then ['\\', '\\']
    else if n == 0x08 then ['\\', 'b']
    else if n == 0x0C then ['\\', 'f']
    else if n == 0x0A then ['\\', 'n']
    else if n == 0x0D then ['\\', 'r']
    else if n == 0x09 then ['\\', 't']
    else if n < 0x20 then ['\\', 'u', '0', '0', HexDigit(n / 16), HexDigit(n % 16)]
    else [c]
  }

  /** The characters between the quotes of a serialised string. */
  function EscapeBody(s: string): (t: string)
    ensures |t| >= |s|
  {
    if s == [] then [] else EscapeChar(s[0]) + EscapeBody(s[1..])
  }

  /** `JSON.stringify(v)` for a primitive. */
  function Stringify(v: Json): (t: string)
    requires IsPrimitive(v)
    ensures v.JStr? ==> |t| >= 2 && t[0] == '"' && t[|t| - 1] == '"'
  {
    match v
    case JNull => "null"
    case JBool(b) => if b then "true" else "false"
    case JNum(text) => text
    case JStr(s) => "\"" + EscapeBody(s) + "\""
  }

  // ---------------------------------------------------------------------
  // Reading a serialised string back

  function HexValue(c: char): (d: Option<nat>)
    ensures d.Some? ==> d.value < 16
  {
    if '0' <= c <= '9' then Some(c as int - '0' as int)
    else if 'a' <= c <= 'f' then Some(c as int - 'a' as int + 10)
    else if 'A' <= c <= 'F' then Some(c as int - 'A' as int + 10)
    else None
  }

  /** Value of the four hex digits of a `\uXXXX` escape. */
  function Hex4(t: string): (code: Option<nat>)
    requires |t| == 4
    ensures code.Some? ==> code.value < 0x10000
  {
    match (HexValue(t[0]), HexValue(t[1]), HexValue(t[2]), HexValue(t[3]))
    case (Some(a), Some(b), Some(c), Some(d)) => Some(((a * 16 + b) * 16 + c) * 16 + d)
    case _ => None
  }

  function Prepend(c: char, rest: Option<string>): Option<string> {
    match rest
    case Some(u) => Some([c] + u)
    case None => None
  }

  /** The character a two-character escape `\c` stands for. */
  function ShortEscape(c: char): Option<char> {
    if c == '"' then Some('"')
    else if c == '\\' then Some('\\')
    else if c == '/' then Some('/')
    else if c == 'b' then Some(8 as char)
    else if c == 'f' then Some(12 as char)
    else if c == 'n' then Some(10 as char)
    else if c == 'r' then Some(13 as char)
    else if c == 't' then Some(9 as char)
    else None
  }

  /** Decodes the body of a JSON string literal: the two-character escapes
      and `\uXXXX` for a code that is not a surrogate half. A raw quote or
      control character, or any other escape, is rejected. */
  function Unescape(t: string): (r: Option<string>)
    decreases |t|
  {
    if t == [] then Some([])
    else if t[0] == '\\' then
      if |t| >= 6 && t[1] == 'u' then
        match Hex4(t[2..6])
        case Some(code) =>
          if code < 0xD800 || 0xE000 <= code then Prepend(code as char, Unescape(t[6..]))
          else None
        case None => None
      else if |t| >= 2 then
        match ShortEscape(t[1])
        case Some(c) => Prepend(c, Unescape(t[2..]))
        case None => None
      else None
    else if t[0] == '"' || t[0] as int < 0x20 then None
    else Prepend(t[0], Unescape(t[1..]))
  }

  /** Reads a serialised string literal back to the string it denotes. */
  function Unquote(t: string): Option<string> {
    if |t| >= 2 && t[0] == '"' && t[|t| - 1] == '"' then Unescape(t[1..|t| - 1]) else None
  }

  /** HexValue reads back the digit HexDigit writes. */
  lemma HexDigitValue(d: nat)
    requires d < 16
    ensures HexValue(HexDigit(d)) == Some(d)
  {
  }

  /** A `\u00XX` escape reads back as the control character it encodes. */
  lemma ControlEscapeThenUnescape(c: char, t: string)
    requires c as int < 0x20
    ensures Unescape(['\\', 'u', '0', '0', HexDigit(c as int / 16), HexDigit(c as int % 16)] + t) == Prepend(c, Unescape(t))
  {
    var n := c as int;
    var e := ['\\', 'u', '0', '0', HexDigit(n / 16), HexDigit(n % 16)];
    var w := e + t;
    assert w[2..6] == e[2..6];
    assert w[6..] == t;
    HexDigitValue(n / 16);
    HexDigitValue(n % 16);
    assert HexValue('0') == Some(0);
    assert Hex4(w[2..6]) == Some(((0 * 16 + 0) * 16 + n / 16) * 16 + n % 16);
  }

  /** A two-character escape reads back as the character it stands for. */
  lemma ShortEscapeThenUnescape(c: char, x: char, t: string)
    requires ShortEscape(x) == Some(c)
    ensures Unescape(['\\', x] + t) == Prepend(c, Unescape(t))
  {
    assert (['\\', x] + t)[2..] == t;
  }

  lemma EscapeCharThenUnescape(c: char, t: string)
    ensures Unescape(EscapeChar(c) + t) == Prepend(c, Unescape(t))
  {
    var n := c as int;
    if n == 0x22 {
      ShortEscapeThenUnescape(c, '"', t);
    } else if n == 0x5C {
      ShortEscapeThenUnescape(c, '\\', t);
    } else if n == 0x08 {
      ShortEscapeThenUnescape(c, 'b', t);
    } else if n == 0x0C {
      ShortEscapeThenUnescape(c, 'f', t);
    } else if n == 0x0A {
      ShortEscapeThenUnescape(c, 'n', t);
    } else if n == 0x0D {
      ShortEscapeThenUnescape(c, 'r', t);
    } else if n == 0x09 {
      ShortEscapeThenUnescape(c, 't', t);
    } else if n < 0x20 {
      ControlEscapeThenUnescape(c, t);
    } else {
      assert ([c] + t)[1..] == t;
    }
  }

  lemma {:induction false} UnescapeEscapeBody(s: string)
    ensures Unescape(EscapeBody(s)) == Some(s)
  {
    if s != [] {
      EscapeCharThenUnescape(s[0], EscapeBody(s[1..]));
      UnescapeEscapeBody(s[1..]);
      assert [s[0]] + s[1..] == s;
    }
  }

  /** `JSON.stringify` of a string loses nothing: reading the literal back
      gives the original string. */
  lemma StringifyRoundTrip(s: string)
    ensures Unquote(Stringify(JStr(s))) == Some(s)
  {
    var t := Stringify(JStr(s));
    assert t[1..|t| - 1] == EscapeBody(s);
    UnescapeEscapeBody(s);
  }
}
