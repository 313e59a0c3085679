/**
 * The part of the WHATWG URL parser the author importer leans on: whether `new URL(s)` accepts
 * `s` at all (it needs a scheme, as there is no base URL), and `searchParams.get(name)`, the value
 * of the first query parameter called `name`.
 */
module Urls {
  import opened Common
  import opened Text

  /** The text of `s` before its first `c`, or all of `s` when `c` does not occur. */
  function UpTo(s: string, c: char): (r: string)
    ensures r <= s && c !in r
    ensures |r| < |s| ==> s[|r|] == c
    decreases |s|
  {
    if s == [] || s[0] == c then [] else [s[0]] + UpTo(s[1..], c)
  }

  /** The text of `s` after its first `c`, if `c` occurs. */
  function AfterFirst(s: string, c: char): (r: Option<string>)
    ensures r.None? <==> c !in s
    ensures r.Some? ==> s == UpTo(s, c) + [c] + r.value
  {
    var before := UpTo(s, c);
    if |before| < |s| then
      assert s == before + [c] + s[|before| + 1..];
      Some(s[|before| + 1..])
    else
      assert before == s;
      None
  }

  lemma {:induction false} UpToFirst(a: string, c: char, b: string)
    requires c !in a
    ensures UpTo(a + [c] + b, c) == a
    ensures AfterFirst(a + [c] + b, c) == Some(b)
    decreases |a|
  {
    if a != [] {
      assert (a + [c] + b)[1..] == a[1..] + [c] + b;
      UpToFirst(a[1..], c, b);
    }
  }

  lemma {:induction false} UpToAbsent(s: string, c: char)
    requires c !in s
    ensures UpTo(s, c) == s
    decreases |s|
  {
    if s != [] {
      UpToAbsent(s[1..], c);
    }
  }

  // ---------------------------------------------------------------------------
  // Parsing without a base URL

  predicate IsAsciiAlpha(ch: char) {
    'a' <= ch <= 'z' || 'A' <= ch <= 'Z'
  }

  predicate IsSchemeChar(ch: char) {
    IsAsciiAlpha(ch) || IsDigit(ch) || ch == '+' || ch == '-' || ch == '.'
  }

  /**
   * `s` starts with a scheme: an ASCII letter, then letters, digits, `+`, `-` or `.`, up to a `:`.
   * Without a base URL, `new URL(s)` throws when this fails.
   */
  predicate HasScheme(s: string) {
    var scheme := UpTo(s, ':');
    && |scheme| < |s|
    && |scheme| >= 1
    && IsAsciiAlpha(scheme[0])
    && forall i :: 0 <= i < |scheme| ==> IsSchemeChar(scheme[i])
  }

  /** Text without a `:` is never an absolute URL. */
  lemma NoColonNoScheme(s: string)
    requires ':' !in s
    ensures !HasScheme(s)
  {
    UpToAbsent(s, ':');
  }

  lemma {:induction false} UpToExtend(a: string, b: string, c: char)
    requires c in a
    ensures UpTo(a + b, c) == UpTo(a, c)
    decreases |a|
  {
    if a[0] != c {
      assert (a + b)[1..] == a[1..] + b;
      UpToExtend(a[1..], b, c);
    }
  }

  /** Appending text to an absolute URL leaves its scheme in place. */
  lemma SchemeOfExtension(a: string, b: string)
    requires HasScheme(a)
    ensures HasScheme(a + b)
  {
    UpToExtend(a, b, ':');
  }

  // ---------------------------------------------------------------------------
  // searchParams.get

  /** The query of a URL: after the first `?` that comes before any `#`, up to that `#`. */
  function Query(url: string): (q: string)
    ensures '#' !in q
  {
    var beforeFragment := UpTo(url, '#');
    match AfterFirst(beforeFragment, '?')
    case None => ""
    case Some(q) => q
  }

  /** The name of a `name=value` pair: up to the first `=`, or the whole pair without one. */
  function ParamName(pair: string): string {
    UpTo(pair, '=')
  }

  /** The value of a `name=value` pair: after the first `=`, or empty without one. */
  function ParamValue(pair: string): string {
    match AfterFirst(pair, '=')
    case None => ""
    case Some(v) => v
  }

  /** The pair matches `name` (an empty pair, as in `a=1&&b=2`, is skipped). */
  predicate PairNamed(pair: string, name: string) {
    pair != "" && ParamName(pair) == name
  }

  /** `pairs[i]` is the first pair called `name`. */
  predicate FirstNamedAt(pairs: seq<string>, name: string, i: nat) {
    && i < |pairs|
    && PairNamed(pairs[i], name)
    && forall j :: 0 <= j < i ==> !PairNamed(pairs[j], name)
  }

  /** The value of the first pair called `name`. */
  function FirstParam(pairs: seq<string>, name: string): (r: Option<string>)
    ensures r.None? <==> forall i :: 0 <= i < |pairs| ==> !PairNamed(pairs[i], name)
    ensures r.Some? ==> exists i: nat :: FirstNamedAt(pairs, name, i) && r.value == ParamValue(pairs[i])
    decreases |pairs|
  {
    if pairs == [] then None
    else if PairNamed(pairs[0], name) then
      assert FirstNamedAt(pairs, name, 0);
      Some(ParamValue(pairs[0]))
    else
      var r := FirstParam(pairs[1..], name);
      assert forall i :: 1 <= i < |pairs| ==> pairs[i] == pairs[1..][i - 1];
      if r.Some? then
        var i: nat :| FirstNamedAt(pairs[1..], name, i) && r.value == ParamValue(pairs[1..][i]);
        assert FirstNamedAt(pairs, name, i + 1);
        r
      else
        r
  }

  /** `new URL(url).searchParams.get(name)`, `None` standing for `null`. Percent-decoding is not modelled. */
  function SearchParam(url: string, name: string): Option<string> {
    FirstParam(Split(Query(url), '&'), name)
  }

  /** The pair `name=value` is called `name` and holds `value`. */
  lemma PairOf(name: string, value: string)
    requires name != "" && '=' !in name
    ensures PairNamed(name + "=" + value, name) && ParamValue(name + "=" + value) == value
  {
    assert name + "=" + value == name + ['='] + value;
    UpToFirst(name, '=', value);
  }

  /** Without a fragment, the query is everything after the first `?`. */
  lemma QueryAfterPath(path: string, q: string)
    requires '?' !in path && '#' !in path && '#' !in q
    ensures Query(path + ['?'] + q) == q
  {
    UpToAbsent(path + ['?'] + q, '#');
    UpToFirst(path, '?', q);
  }

  /**
   * A URL whose query starts with `name=value` gives `value` for `name`, whatever parameters
   * follow it: the shape of the Scopus author links in the provider's records.
   */
  lemma SearchParamFirstPair(path: string, name: string, value: string, rest: string)
    requires '?' !in path && '#' !in path
    requires name != "" && '=' !in name && '&' !in name && '#' !in name
    requires '&' !in value && '#' !in value && '#' !in rest
    ensures SearchParam(path + "?" + name + "=" + value + "&" + rest, name) == Some(value)
  {
    var pair := name + "=" + value;
    PairOf(name, value);
    var q := pair + ['&'] + rest;
    assert path + "?" + name + "=" + value + "&" + rest == path + ['?'] + q;
    QueryAfterPath(path, q);
    SplitAtSeparator(pair, rest, '&');
    SplitWithoutSeparator(pair, '&');
  }

  /** The same when `name=value` is the only parameter. */
  lemma SearchParamOnlyPair(path: string, name: string, value: string)
    requires '?' !in path && '#' !in path
    requires name != "" && '=' !in name && '&' !in name && '#' !in name
    requires '&' !in value && '#' !in value
    ensures SearchParam(path + "?" + name + "=" + value, name) == Some(value)
  {
    var pair := name + "=" + value;
    PairOf(name, value);
    assert path + "?" + name + "=" + value == path + ['?'] + pair;
    QueryAfterPath(path, pair);
    SplitWithoutSeparator(pair, '&');
  }
}
