/**
 * The few pieces of JavaScript semantics the core relies on: JSON values and
 * their truthiness, property reads, the whitespace class of regular
 * expressions and `trim`, template-literal rendering of absent values, and the
 * UTF-16 code units that `charCodeAt` returns.
 */
module Js {
  import opened Wrappers

  /** A value as `JSON.parse` produces it (JSON has no NaN or infinities, so numbers are reals). */
  datatype Json =
    | Null
    | Bool(b: bool)
    | Num(n: real)
    | Str(s: string)
    | Arr(items: seq<Json>)
    | Obj(members: map<string, Json>)

  /** JavaScript truthiness of a JSON value. */
  predicate Truthy(v: Json) {
    match v
    case Null => false
    case Bool(b) => b
    case Num(n) => n != 0.0
    case Str(s) => s != ""
    case Arr(_) => true
    case Obj(_) => true
  }

  /** Truthiness of a value that may be `undefined` (None). */
  predicate TruthyOpt(v: Option<Json>) {
    v.Some? && Truthy(v.value)
  }

  /**
   * The property read `v.key` for a non-index key other than `length`: an
   * object yields its member or `undefined`; a boolean, number, string or array
   * has no such own property. Reading a property of `null` throws, so `null`
   * is excluded here and handled by the callers.
   */
  function Member(v: Json, key: string): (r: Option<Json>)
    requires !v.Null?
    ensures r.Some? <==> v.Obj? && key in v.members
    ensures r.Some? ==> r.value == v.members[key]
  {
    match v
    case Obj(m) => if key in m then Some(m[key]) else None
    case _ => None
  }

  /** The optional-chaining read `v?.key`: `undefined` when `v` is `null`. */
  function OptionalMember(v: Json, key: string): Option<Json> {
    if v.Null? then None else Member(v, key)
  }

  /** `Object.keys(v).length`: members of an object, indices of an array, or the UTF-16 code units of a string. */
  function KeyCount(v: Json): nat {
    match v
    case Obj(m) => |m|
    case Arr(items) => |items|
    case Str(s) => |Utf16(s)|
    case _ => 0
  }

  /**
   * The characters of the ECMAScript WhiteSpace and LineTerminator
   * productions: exactly what the regular-expression class `\s` matches and
   * what `String.prototype.trim` removes.
   */
  predicate IsSpace(c: char) {
    if c <= ' ' then c == ' ' || '\t' <= c <= '\r' else '\U{A0}' <= c && IsWideSpace(c)
  }

  /** The whitespace characters beyond ASCII. */
  predicate IsWideSpace(c: char) {
    || c == '\U{A0}' || c == '\U{1680}' || ('\U{2000}' <= c <= '\U{200A}')
    || c == '\U{2028}' || c == '\U{2029}' || c == '\U{202F}' || c == '\U{205F}'
    || c == '\U{3000}' || c == '\U{FEFF}'
  }

  predicate AllSpace(s: string) {
    forall k | 0 <= k < |s| :: IsSpace(s[k])
  }

  /** `s.startsWith(p)`. */
  predicate StartsWith(s: string, p: string) {
    |p| <= |s| && s[..|p|] == p
  }

  /** The input without its leading whitespace. */
  function TrimStart(s: string): (r: string)
    ensures |r| <= |s|
    ensures r == [] || !IsSpace(r[0])
  {
    if s != [] && IsSpace(s[0]) then TrimStart(s[1..]) else s
  }

  /** What trimming the start leaves is a suffix of the input, and only whitespace is cut off. */
  lemma {:induction false} TrimStartIsSuffix(s: string)
    ensures TrimStart(s) == s[|s| - |TrimStart(s)|..]
    ensures AllSpace(s[..|s| - |TrimStart(s)|])
  {
    if s != [] && IsSpace(s[0]) {
      var r := TrimStart(s[1..]);
      TrimStartIsSuffix(s[1..]);
      assert s[1..][|s| - 1 - |r|..] == s[|s| - |r|..];
      assert s[1..][..|s| - 1 - |r|] == s[1..|s| - |r|];
    }
  }

  /** The input without its trailing whitespace. */
  function TrimEnd(s: string): (r: string)
    ensures |r| <= |s|
    ensures r == [] || !IsSpace(r[|r| - 1])
  {
    if s != [] && IsSpace(s[|s| - 1]) then TrimEnd(s[..|s| - 1]) else s
  }

  /** What trimming the end leaves is a prefix of the input, and only whitespace is cut off. */
  lemma {:induction false} TrimEndIsPrefix(s: string)
    ensures TrimEnd(s) == s[..|TrimEnd(s)|]
    ensures AllSpace(s[|TrimEnd(s)|..])
  {
    if s != [] && IsSpace(s[|s| - 1]) {
      var r := TrimEnd(s[..|s| - 1]);
      TrimEndIsPrefix(s[..|s| - 1]);
      assert s[..|s| - 1][..|r|] == s[..|r|];
      assert s[|r|..] == s[..|s| - 1][|r|..] + [s[|s| - 1]];
    }
  }

  /** Whitespace in front of a text does not survive trimming the start. */
  lemma {:induction false} TrimStartSkipsSpace(w: string, x: string)
    requires AllSpace(w)
    ensures TrimStart(w + x) == TrimStart(x)
  {
    if w != [] {
      assert (w + x)[0] == w[0] && (w + x)[1..] == w[1..] + x;
      TrimStartSkipsSpace(w[1..], x);
    } else {
      assert w + x == x;
    }
  }

  /** A text that trims to nothing disappears in front of whatever follows it. */
  lemma TrimStartOfBlank(x: string, y: string)
    requires TrimStart(x) == []
    ensures TrimStart(x + y) == TrimStart(y)
  {
    TrimStartIsSuffix(x);
    assert x[..|x|] == x;
    TrimStartSkipsSpace(x, y);
  }

  /** Once a text has a non-space character, what follows it is not touched by trimming the start. */
  lemma {:induction false} TrimStartOfConcat(x: string, y: string)
    requires TrimStart(x) != []
    ensures TrimStart(x + y) == TrimStart(x) + y
  {
    var xy := x + y;
    assert xy[0] == x[0];
    if IsSpace(x[0]) {
      assert TrimStart(x) == TrimStart(x[1..]);
      assert xy[1..] == x[1..] + y;
      TrimStartOfConcat(x[1..], y);
      assert TrimStart(xy) == TrimStart(xy[1..]);
    } else {
      assert TrimStart(x) == x && TrimStart(xy) == xy;
    }
  }

  /** A text that starts with whitespace gets shorter. */
  lemma TrimStartShrinks(s: string)
    requires s != [] && IsSpace(s[0])
    ensures |TrimStart(s)| < |s|
  {
  }

  /** Trimming the start twice is trimming it once. */
  lemma TrimStartIdempotent(s: string)
    ensures TrimStart(TrimStart(s)) == TrimStart(s)
  {
  }

  /** Whitespace behind a text does not survive trimming the end. */
  lemma {:induction false} TrimEndSkipsSpace(x: string, w: string)
    requires AllSpace(w)
    ensures TrimEnd(x + w) == TrimEnd(x)
  {
    if w != [] {
      var w' := w[..|w| - 1];
      assert (x + w)[|x + w| - 1] == w[|w| - 1] && (x + w)[..|x + w| - 1] == x + w';
      TrimEndSkipsSpace(x, w');
    } else {
      assert x + w == x;
    }
  }

  /** A character of an all-space suffix is a space. */
  lemma SpaceAt(s: string, a: nat, k: nat)
    requires a <= k < |s| && AllSpace(s[a..])
    ensures IsSpace(s[k])
  {
    assert s[a..][k - a] == s[k];
  }

  /** The end is trimmed back to the last non-space character. */
  lemma TrimEndAt(s: string, k: nat)
    requires k < |s| && !IsSpace(s[k]) && AllSpace(s[k + 1..])
    ensures TrimEnd(s) == s[..k + 1]
  {
    var r := TrimEnd(s);
    TrimEndIsPrefix(s);
    assert |r| > k by {
      assert forall j | |r| <= j < |s| :: IsSpace(s[j]) by {
        forall j | |r| <= j < |s| ensures IsSpace(s[j]) {
          SpaceAt(s, |r|, j);
        }
      }
    }
  }

  /** `s.trim()`. */
  function Trim(s: string): string {
    TrimEnd(TrimStart(s))
  }

  /** How a template literal renders a string that may be `undefined`. */
  function Render(v: Option<string>): string {
    match v
    case Some(s) => s
    case None => "undefined"
  }

  /** `a || b` for two strings: the first unless it is empty. */
  function OrElse(a: Option<string>, b: string): string {
    if a.Some? && a.value != "" then a.value else b
  }

  /** `a || b` for a value that may be `undefined`: the first unless it is falsy. */
  function OrValue(a: Option<Json>, b: Json): Json {
    if TruthyOpt(a) then a.value else b
  }

  /** A UTF-16 code unit, the value JavaScript's `charCodeAt` returns. */
  type CodeUnit = bv16

  /**
   * One character as JavaScript stores it: a code point beyond the Basic
   * Multilingual Plane takes a surrogate pair of two code units.
   */
  function CodeUnits(ch: char): (u: seq<CodeUnit>)
    ensures ch as int < 0x1_0000 ==> u == [ch as int as bv16]
    ensures ch as int >= 0x1_0000 ==> |u| == 2
  {
    var c := ch as int;
    if c < 0x1_0000 then [c as bv16]
    else
      var high := 0xD800 + (c - 0x1_0000) / 0x400;
      var low := 0xDC00 + (c - 0x1_0000) % 0x400;
      [high as bv16, low as bv16]
  }

  /** A string as the sequence of its UTF-16 code units. */
  function Utf16(s: string): (u: seq<CodeUnit>)
    ensures |u| >= |s|
  {
    if s == [] then [] else CodeUnits(s[0]) + Utf16(s[1..])
  }

  /** A character of the Basic Multilingual Plane in front of a text adds its one code unit. */
  lemma Utf16OfSmall(s: string)
    requires s != [] && s[0] as int < 0x1_0000
    ensures Utf16(s) == [s[0] as int as bv16] + Utf16(s[1..])
  {
  }

  /** Below U+0100 every character is one code unit holding its own value. */
  lemma {:induction false} Utf16OfLatin1(s: string)
    requires forall k | 0 <= k < |s| :: s[k] as int < 0x100
    ensures |Utf16(s)| == |s|
    ensures forall k | 0 <= k < |s| :: Utf16(s)[k] == s[k] as int as bv16
  {
    if s != [] {
      Utf16OfLatin1(s[1..]);
      var u := Utf16(s);
      Utf16OfSmall(s);
      forall k | 1 <= k < |s| ensures u[k] == s[k] as int as bv16 {
        assert u[k] == Utf16(s[1..])[k - 1] && s[k] == s[1..][k - 1];
      }
    }
  }
}
