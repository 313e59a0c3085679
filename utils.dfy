/**
 * The helpers shared by the importers (utils.ts): identifiers taken from the last segment of a
 * provider URL, and the `set*Property` builders that turn an optional value into the full fact
 * list of one property.
 */
module Utils {
  import opened Common
  import opened Text
  import opened Bulk

  /** A JavaScript truthiness test on an optional string: present and not empty. */
  predicate Truthy(s: Option<string>) {
    s.Some? && s.value != ""
  }

  // ---------------------------------------------------------------------------
  // Identifiers

  /**
   * `id` is the last `/`-separated segment of `url`: a suffix of `url` without `/` that is
   * either all of `url` or starts right after a `/`.
   */
  predicate IsLastSegment(url: string, id: string) {
    && '/' !in id
    && |id| <= |url|
    && url[|url| - |id|..] == id
    && (|id| == |url| || url[|url| - |id| - 1] == '/')
  }

  /** A URL has exactly one last segment. */
  lemma LastSegmentUnique(url: string, a: string, b: string)
    requires IsLastSegment(url, a) && IsLastSegment(url, b)
    ensures a == b
  {
  }

  lemma LastPieceIsLastSegment(parts: seq<string>)
    requires |parts| >= 1
    requires forall i :: 0 <= i < |parts| ==> '/' !in parts[i]
    ensures IsLastSegment(Join(parts, '/'), Last(parts))
  {
    var url, id := Join(parts, '/'), Last(parts);
    if |parts| > 1 {
      var prefix := Join(parts[..|parts| - 1], '/') + ['/'];
      assert url == prefix + id;
      assert url[|url| - |id|..] == id;
      assert url[|url| - |id| - 1] == Last(prefix);
    }
  }

  /**
   * `getIdFromUrl`: the last segment of the URL, e.g. "C2778407487" for
   * "https://openalex.org/C2778407487", read from the end of the URL back to its last `/`.
   */
  function GetIdFromUrl(url: string): (id: string)
    ensures '/' !in id
    decreases |url|
  {
    if url == [] || Last(url) == '/' then [] else GetIdFromUrl(url[..|url| - 1]) + [Last(url)]
  }

  /** What `getIdFromUrl` returns is the last segment of its URL. */
  lemma {:induction false} GetIdFromUrlIsLastSegment(url: string)
    ensures IsLastSegment(url, GetIdFromUrl(url))
    decreases |url|
  {
    if url != [] && Last(url) != '/' {
      var init := url[..|url| - 1];
      GetIdFromUrlIsLastSegment(init);
      var id := GetIdFromUrl(init);
      assert url == init + [Last(url)];
      assert url[|url| - |id| - 1..] == init[|init| - |id|..] + [Last(url)];
    }
  }

  /** A URL without `/` is its own id. */
  lemma GetIdFromUrlWithoutSlash(url: string)
    requires '/' !in url
    ensures GetIdFromUrl(url) == url
  {
    GetIdFromUrlIsLastSegment(url);
  }

  /** The last segment is what `url.split("/").pop()` returns. */
  lemma GetIdFromUrlIsSplitPop(url: string)
    ensures GetIdFromUrl(url) == Last(Split(url, '/'))
  {
    var parts := Split(url, '/');
    JoinSplit(url, '/');
    SplitPiecesLackSeparator(url, '/');
    LastPieceIsLastSegment(parts);
    GetIdFromUrlIsLastSegment(url);
    LastSegmentUnique(url, GetIdFromUrl(url), Last(parts));
  }

  /** `getIdFromUrlIfSet`: an absent URL stays absent; a present one, even empty, gives its last segment. */
  function GetIdFromUrlIfSet(url: Option<string>): (id: Option<string>)
    ensures id.Some? <==> url.Some?
    ensures url.Some? ==> IsLastSegment(url.value, id.value)
  {
    if url.None? || url.value == "" then url
    else
      GetIdFromUrlIsLastSegment(url.value);
      Some(GetIdFromUrl(url.value))
  }

  /**
   * `getWikipediaIdFromUrl`: absent or empty gives nothing; otherwise the last segment with every
   * `%20` turned into `_` (`ReplaceAllAtFirstOccurrence` says how each occurrence is replaced).
   */
  function GetWikipediaIdFromUrl(url: Option<string>): (id: Option<string>)
    ensures id.None? <==> !Truthy(url)
    ensures id.Some? ==> forall seg :: IsLastSegment(url.value, seg) ==> id.value == ReplaceAll(seg, "%20", "_")
    ensures id.Some? ==> '/' !in id.value && !Contains(id.value, "%20")
    ensures id.Some? && !Contains(GetIdFromUrl(url.value), "%20") ==> IsLastSegment(url.value, id.value)
  {
    if !Truthy(url) then None
    else
      var segment := GetIdFromUrl(url.value);
      GetIdFromUrlIsLastSegment(url.value);
      assert forall seg :: IsLastSegment(url.value, seg) ==> seg == segment by {
        forall seg | IsLastSegment(url.value, seg) ensures seg == segment {
          LastSegmentUnique(url.value, seg, segment);
        }
      }
      ReplaceAllLeavesNoPercent20(segment);
      Some(ReplaceAll(segment, "%20", "_"))
  }

  // ---------------------------------------------------------------------------
  // Value expressions and how they read back

  /** A string literal value expression: the text between double quotes (not escaped). */
  function Quote(v: string): string {
    "\"" + v + "\""
  }

  /** The text of a string-literal value expression. */
  function ReadString(f: Fact): Option<string> {
    var e := f.valueExpression;
    if |e| >= 2 && e[0] == '"' && Last(e) == '"' then Some(e[1..|e| - 1]) else None
  }

  lemma ReadQuoted(v: string)
    ensures ReadString(Fact(Quote(v))) == Some(v)
  {
    assert Quote(v)[1..|Quote(v)| - 1] == v;
  }

  /** The value of a boolean value expression. */
  function ReadBool(f: Fact): Option<bool> {
    if f.valueExpression == "true" then Some(true)
    else if f.valueExpression == "false" then Some(false)
    else None
  }

  const DateOpen := "date(\""
  const DateClose := "\")"

  /** The date text of a `date("…")` value expression. */
  function ReadDate(f: Fact): Option<string> {
    var e := f.valueExpression;
    if |e| >= |DateOpen| + |DateClose| && e[..|DateOpen|] == DateOpen && e[|e| - |DateClose|..] == DateClose
    then Some(e[|DateOpen|..|e| - |DateClose|])
    else None
  }

  /** `value.substring(0, 10)`: the calendar-date part of a date or date-time string. */
  function DatePart(value: string): (d: string)
    ensures d <= value
    ensures |d| == if |value| < 10 then |value| else 10
  {
    value[..if |value| < 10 then |value| else 10]
  }

  // ---------------------------------------------------------------------------
  // Property-fact builders

  /** `setStringProperty`: no fact for an absent value, else one quoted fact (also for ""). */
  function SetStringProperty(propertyKey: string, value: Option<string>): (p: PropertyFacts)
    ensures p.propertyKey == propertyKey
    ensures p.facts == [] <==> value.None?
    ensures value.Some? ==> |p.facts| == 1 && ReadString(p.facts[0]) == value
  {
    if value.None? then PropertyFacts(propertyKey, [])
    else
      ReadQuoted(value.value);
      PropertyFacts(propertyKey, [Fact(Quote(value.value))])
  }

  /** `setBooleanProperty`: no fact for an absent value, else `true` or `false`. */
  function SetBooleanProperty(propertyKey: string, value: Option<bool>): (p: PropertyFacts)
    ensures p.propertyKey == propertyKey
    ensures p.facts == [] <==> value.None?
    ensures value.Some? ==> |p.facts| == 1 && ReadBool(p.facts[0]) == value
    ensures forall i :: 0 <= i < |p.facts| ==> p.facts[i].valueExpression in {"true", "false"}
  {
    if value.None? then PropertyFacts(propertyKey, [])
    else PropertyFacts(propertyKey, [Fact(if value.value then "true" else "false")])
  }

  /** `setStringListProperty`: one quoted fact per element, in order; nothing when the value is not an array. */
  function SetStringListProperty(propertyKey: string, value: Option<seq<string>>): (p: PropertyFacts)
    ensures p.propertyKey == propertyKey
    ensures |p.facts| == if value.Some? then |value.value| else 0
    ensures value.Some? ==> forall i :: 0 <= i < |p.facts| ==> ReadString(p.facts[i]) == Some(value.value[i])
  {
    if value.None? then PropertyFacts(propertyKey, [])
    else
      var vs := value.value;
      assert forall i :: 0 <= i < |vs| ==> ReadString(Fact(Quote(vs[i]))) == Some(vs[i]) by {
        forall i | 0 <= i < |vs| { ReadQuoted(vs[i]); }
      }
      PropertyFacts(propertyKey, seq(|vs|, i requires 0 <= i < |vs| => Fact(Quote(vs[i]))))
  }

  /** `setIntegerProperty`: no fact for an absent value, else one fact holding its decimal text. */
  function SetIntegerProperty(propertyKey: string, value: Option<int>): (p: PropertyFacts)
    ensures p.propertyKey == propertyKey
    ensures p.facts == [] <==> value.None?
    ensures value.Some? ==> |p.facts| == 1 && p.facts[0].valueExpression == IntToString(value.value)
  {
    if value.None? then PropertyFacts(propertyKey, [])
    else PropertyFacts(propertyKey, [Fact(IntToString(value.value))])
  }

  /** The fact `setIntegerProperty` writes reads back, through `parseInt`, as the number it was given. */
  lemma SetIntegerReadBack(propertyKey: string, value: int)
    ensures var p := SetIntegerProperty(propertyKey, Some(value));
      |p.facts| == 1 && ParseInt(p.facts[0].valueExpression) == Some(value)
  {
    IntToStringRoundTrip(value);
  }

  /** `setDateProperty`: no fact for an absent value, else `date("…")` of its first 10 characters. */
  function SetDateProperty(propertyKey: string, value: Option<string>): (p: PropertyFacts)
    ensures p.propertyKey == propertyKey
    ensures p.facts == [] <==> value.None?
    ensures value.Some? ==> |p.facts| == 1 && ReadDate(p.facts[0]) == Some(DatePart(value.value))
    ensures value.Some? && |value.value| <= 10 ==> ReadDate(p.facts[0]) == value
  {
    if value.None? then PropertyFacts(propertyKey, [])
    else
      var d := DatePart(value.value);
      var e := DateOpen + d + DateClose;
      assert e[..|DateOpen|] == DateOpen && e[|e| - |DateClose|..] == DateClose;
      assert e[|DateOpen|..|e| - |DateClose|] == d;
      assert |value.value| <= 10 ==> d == value.value;
      PropertyFacts(propertyKey, [Fact(e)])
  }

  /**
   * The MAG identifier fact the three bulk importers write with
   * `setIntegerProperty(key, mag ? parseInt(mag, 10) : undefined)`: nothing for an absent or empty
   * identifier, else the number `parseInt` reads from it, or `NaN` when it reads none.
   */
  function SetMagIdProperty(propertyKey: string, mag: Option<string>): (p: PropertyFacts)
    ensures p.propertyKey == propertyKey
    ensures p.facts == [] <==> !Truthy(mag)
    ensures Truthy(mag) ==> |p.facts| == 1
    ensures Truthy(mag) && ParseInt(mag.value).Some? ==> ParseInt(p.facts[0].valueExpression) == ParseInt(mag.value)
    ensures Truthy(mag) && ParseInt(mag.value).Some? ==> p.facts[0].valueExpression == IntToString(ParseInt(mag.value).value)
    ensures Truthy(mag) && ParseInt(mag.value).None? ==> p.facts[0].valueExpression == "NaN"
  {
    if !Truthy(mag) then SetIntegerProperty(propertyKey, None)
    else
      match ParseInt(mag.value)
      case Some(n) =>
        SetIntegerReadBack(propertyKey, n);
        SetIntegerProperty(propertyKey, Some(n))
      case None => PropertyFacts(propertyKey, [Fact("NaN")])
  }

  /** A MAG identifier made of digits is written as its number, so leading zeros are dropped. */
  lemma MagIdOfDigits(propertyKey: string, mag: string)
    requires mag != [] && AllDigits(mag)
    ensures var p := SetMagIdProperty(propertyKey, Some(mag));
      |p.facts| == 1 && ParseInt(p.facts[0].valueExpression) == Some(DigitsValue(mag))
  {
    ParseIntOfDigits(mag);
  }
}
