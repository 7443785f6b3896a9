/**
 * The untyped JavaScript values that the realtime database and `JSON.parse`
 * hand to the sensor pipeline, and the few built-in operations of the
 * language that the pipeline relies on.
 */
module JsValues {
  import opened Wrappers

  /**
   * A JavaScript value. Numbers are reals: NaN and the infinities are not
   * modelled. An object lists its own enumerable properties in enumeration
   * order; a JavaScript object never has two properties with the same key.
   */
  datatype JsVal =
    | JNull
    | JUndef
    | JBool(b: bool)
    | JNum(n: real)
    | JStr(s: string)
    | JArr(elems: seq<JsVal>)
    | JObj(props: seq<(string, JsVal)>)

  /**
   * The library primitives the pipeline calls without defining them.
   * `parseJson` is `JSON.parse` (None when it throws), `parseNumber` is
   * `Number(s)` on a string (None when the result is NaN) and `timeLabel`
   * is `new Date(ms).toLocaleTimeString("en-US", {hour, minute})`.
   */
  datatype Primitives = Primitives(
    parseJson: string -> Option<JsVal>,
    parseNumber: string -> Option<real>,
    timeLabel: real -> string)

  /**
   * The values JavaScript converts to `false`. Every array and every object
   * is truthy, the empty ones included.
   */
  predicate Falsy(v: JsVal)
    ensures Falsy(v) ==> !v.JArr? && !v.JObj?
  {
    v == JNull || v == JUndef || v == JBool(false) || v == JNum(0.0) || v == JStr("")
  }

  /** `typeof v === "object"`: true of null, arrays and objects; null is the only falsy one. */
  predicate TypeofObject(v: JsVal)
    ensures TypeofObject(v) && Falsy(v) ==> v == JNull
  {
    v.JNull? || v.JArr? || v.JObj?
  }

  /** No key occurs twice among the properties. */
  ghost predicate DistinctKeys(props: seq<(string, JsVal)>) {
    forall i, j :: 0 <= i < j < |props| ==> props[i].0 != props[j].0
  }

  /** The value stored under `key`, or undefined when there is none. */
  function Lookup(props: seq<(string, JsVal)>, key: string): (r: JsVal) {
    if |props| == 0 then JUndef
    else if props[0].0 == key then props[0].1
    else Lookup(props[1..], key)
  }

  /** Property access `v[key]`: undefined on anything but an object with that key. */
  function Get(v: JsVal, key: string): (r: JsVal)
    ensures !v.JObj? ==> r == JUndef
  {
    if v.JObj? then Lookup(v.props, key) else JUndef
  }

  /** A key reads as undefined or as the value of one of the properties it names. */
  lemma {:induction false} LookupFrom(props: seq<(string, JsVal)>, key: string)
    ensures Lookup(props, key) == JUndef || (key, Lookup(props, key)) in props
  {
    if |props| > 0 && props[0].0 != key {
      LookupFrom(props[1..], key);
    }
  }

  /** A property that is present is found under its own key. */
  lemma {:induction false} LookupPresent(props: seq<(string, JsVal)>, i: nat)
    requires DistinctKeys(props)
    requires i < |props|
    ensures Lookup(props, props[i].0) == props[i].1
  {
    if i > 0 {
      assert props[0].0 != props[i].0;
      assert props[1..][i - 1] == props[i];
      LookupPresent(props[1..], i - 1);
    }
  }

  /** A key that no property carries reads as undefined. */
  lemma {:induction false} LookupAbsent(props: seq<(string, JsVal)>, key: string)
    requires forall i :: 0 <= i < |props| ==> props[i].0 != key
    ensures Lookup(props, key) == JUndef
  {
    if |props| > 0 {
      assert props[0].0 != key;
      LookupAbsent(props[1..], key);
    }
  }

  /**
   * `Object.values(v)`: the property values of an object in enumeration
   * order, the elements of an array, the one-character strings of a string,
   * and nothing for any other value. On null and undefined the built-in
   * throws instead; the pipeline never calls it on either (it tests the
   * value for truthiness first).
   */
  function ObjectValues(v: JsVal): (r: seq<JsVal>)
    ensures v.JObj? ==> |r| == |v.props| && forall i :: 0 <= i < |r| ==> r[i] == v.props[i].1
    ensures v.JArr? ==> r == v.elems
    ensures v.JStr? ==> |r| == |v.s| && forall i :: 0 <= i < |r| ==> r[i] == JStr([v.s[i]])
    ensures !v.JObj? && !v.JArr? && !v.JStr? ==> r == []
  {
    match v
    case JObj(props) => seq(|props|, i requires 0 <= i < |props| => props[i].1)
    case JArr(elems) => elems
    case JStr(s) => seq(|s|, i requires 0 <= i < |s| => JStr([s[i]]))
    case _ => []
  }

  /** `vs.filter(Boolean)`: the truthy values, in order. */
  function Truthy(vs: seq<JsVal>): (r: seq<JsVal>)
    ensures |r| <= |vs|
    ensures forall v :: v in r <==> v in vs && !Falsy(v)
  {
    if |vs| == 0 then []
    else (if Falsy(vs[0]) then [] else [vs[0]]) + Truthy(vs[1..])
  }

  /** Filtering distributes over concatenation, so it keeps the input order. */
  lemma {:induction false} TruthyAppend(a: seq<JsVal>, b: seq<JsVal>)
    ensures Truthy(a + b) == Truthy(a) + Truthy(b)
  {
    if |a| == 0 {
      assert a + b == b;
    } else {
      assert (a + b)[1..] == a[1..] + b;
      TruthyAppend(a[1..], b);
    }
  }

  /** `vs.filter(v => typeof v === "string")`, as strings, in order. */
  function Strings(vs: seq<JsVal>): (r: seq<string>)
    ensures |r| <= |vs|
    ensures forall s :: s in r <==> JStr(s) in vs
  {
    if |vs| == 0 then []
    else (if vs[0].JStr? then [vs[0].s] else []) + Strings(vs[1..])
  }

  /** Keeping the strings distributes over concatenation, so order is kept. */
  lemma {:induction false} StringsAppend(a: seq<JsVal>, b: seq<JsVal>)
    ensures Strings(a + b) == Strings(a) + Strings(b)
  {
    if |a| == 0 {
      assert a + b == b;
    } else {
      assert (a + b)[1..] == a[1..] + b;
      StringsAppend(a[1..], b);
    }
  }

  /** Values that are all strings are kept whole, in order. */
  lemma {:induction false} StringsOfStrings(vs: seq<JsVal>)
    requires forall i :: 0 <= i < |vs| ==> vs[i].JStr?
    ensures |Strings(vs)| == |vs|
    ensures forall i :: 0 <= i < |vs| ==> Strings(vs)[i] == vs[i].s
  {
    if |vs| > 0 {
      StringsOfStrings(vs[1..]);
      var r := Strings(vs);
      assert r == [vs[0].s] + Strings(vs[1..]);
      forall i | 0 <= i < |vs|
        ensures r[i] == vs[i].s
      {
        if i > 0 {
          assert vs[1..][i - 1] == vs[i];
        }
      }
    }
  }

  /** The characters `String.prototype.trim` removes: white space and line terminators. */
  predicate IsJsSpace(c: char) {
    c in {'\t', '\n', '\U{000B}', '\U{000C}', '\r', ' ', '\U{00A0}', '\U{1680}',
          '\U{2000}', '\U{2001}', '\U{2002}', '\U{2003}', '\U{2004}', '\U{2005}',
          '\U{2006}', '\U{2007}', '\U{2008}', '\U{2009}', '\U{200A}', '\U{2028}',
          '\U{2029}', '\U{202F}', '\U{205F}', '\U{3000}', '\U{FEFF}'}
  }

  /** Every character is white space (true of the empty string). */
  predicate Blank(s: string) {
    forall i :: 0 <= i < |s| ==> IsJsSpace(s[i])
  }

  /** `s.trimStart()`: drops the leading white space. */
  function TrimStart(s: string): (r: string)
    ensures |r| <= |s|
    ensures r == [] <==> Blank(s)
    ensures r != [] ==> !IsJsSpace(r[0])
  {
    if |s| > 0 && IsJsSpace(s[0]) then TrimStart(s[1..]) else s
  }

  /** `s.trimEnd()`: drops the trailing white space. */
  function TrimEnd(s: string): (r: string)
    ensures |r| <= |s|
    ensures r != [] ==> r[0] == s[0] && !IsJsSpace(r[|r| - 1])
    ensures |s| > 0 && !IsJsSpace(s[0]) ==> r != []
  {
    if |s| > 0 && IsJsSpace(s[|s| - 1]) then TrimEnd(s[..|s| - 1]) else s
  }

  /**
   * `s.trim()`: what is left once the white space at both ends is dropped.
   * It is empty exactly when `s` is all white space, and otherwise starts
   * and ends with a character that is not white space.
   */
  function Trim(s: string): (r: string)
    ensures |r| <= |s|
    ensures r == [] <==> Blank(s)
    ensures r != [] ==> !IsJsSpace(r[0]) && !IsJsSpace(r[|r| - 1])
  {
    var t := TrimStart(s);
    assert t != [] ==> TrimEnd(t) != [];
    var r := TrimEnd(t);
    r
  }

  /** `trimStart` removes a prefix of white space and nothing else. */
  lemma {:induction false} TrimStartDrops(s: string)
    ensures var r := TrimStart(s);
      r == s[|s| - |r|..] && forall i :: 0 <= i < |s| - |r| ==> IsJsSpace(s[i])
  {
    if |s| > 0 && IsJsSpace(s[0]) {
      var r := TrimStart(s[1..]);
      TrimStartDrops(s[1..]);
      assert s[1..][|s| - 1 - |r|..] == s[|s| - |r|..];
      forall i | 0 <= i < |s| - |r|
        ensures IsJsSpace(s[i])
      {
        if i > 0 {
          assert s[i] == s[1..][i - 1];
        }
      }
    }
  }

  /** `trimEnd` removes a suffix of white space and nothing else. */
  lemma {:induction false} TrimEndDrops(s: string)
    ensures var r := TrimEnd(s);
      r == s[..|r|] && forall i :: |r| <= i < |s| ==> IsJsSpace(s[i])
  {
    if |s| > 0 && IsJsSpace(s[|s| - 1]) {
      var r := TrimEnd(s[..|s| - 1]);
      TrimEndDrops(s[..|s| - 1]);
      assert s[..|s| - 1][..|r|] == s[..|r|];
      forall i | |r| <= i < |s|
        ensures IsJsSpace(s[i])
      {
        if i < |s| - 1 {
          assert s[i] == s[..|s| - 1][i];
        }
      }
    }
  }

  /**
   * `trim` keeps one contiguous piece of the string, starting where the
   * leading white space ends: what comes before it and what comes after it
   * is all white space.
   */
  lemma TrimDrops(s: string)
    ensures var r := Trim(s); var a := |s| - |TrimStart(s)|;
      && 0 <= a <= |s| - |r| && r == s[a..a + |r|]
      && (forall i :: 0 <= i < a ==> IsJsSpace(s[i]))
      && (forall i :: a + |r| <= i < |s| ==> IsJsSpace(s[i]))
  {
    var t := TrimStart(s);
    var r := Trim(s);
    TrimStartDrops(s);
    TrimEndDrops(t);
    var a := |s| - |t|;
    assert r == s[a..a + |r|] by {
      forall k | 0 <= k < |r|
        ensures r[k] == s[a + k]
      {
        assert r[k] == t[k];
      }
    }
    forall i | a + |r| <= i < |s|
      ensures IsJsSpace(s[i])
    {
      assert s[i] == t[i - a];
    }
  }

  /** ASCII letters to lower case; other characters unchanged. */
  function LowerAscii(c: char): char {
    if 'A' <= c <= 'Z' then (c as int + 32) as char else c
  }

  /** The string with its ASCII letters in lower case. */
  function LowerAsciiString(s: string): (r: string)
    ensures |r| == |s|
    ensures forall i :: 0 <= i < |s| ==> r[i] == LowerAscii(s[i])
  {
    seq(|s|, i requires 0 <= i < |s| => LowerAscii(s[i]))
  }

  /**
   * `/^(word)$/i.test(s)` for a lower-case ASCII `word`: the whole string
   * equals `word` up to the case of ASCII letters (a non-Unicode regular
   * expression never folds a non-ASCII character onto an ASCII one).
   */
  function MatchesIgnoreCase(s: string, word: string): (r: bool)
    ensures r <==> LowerAsciiString(s) == word
  {
    var m := |s| == |word| && forall i :: 0 <= i < |s| ==> LowerAscii(s[i]) == word[i];
    assert m ==> LowerAsciiString(s) == word;
    m
  }
}
