/**
 * The JavaScript string operations the importers rely on, on `string` = `seq<char>`:
 * `split` on a one-character separator, `replaceAll` and `replace` of a literal pattern,
 * the blank test `trim() == ''`, `parseInt(_, 10)`, `Number.prototype.toString()` on
 * integers, and the default ordering used by `toSorted()`.
 */
module Text {
  import opened Common

  // ---------------------------------------------------------------------------
  // Occurrences of a literal pattern

  /** `pat` occurs in `s` starting at index `i`. */
  predicate OccursAt(s: string, pat: string, i: nat) {
    i + |pat| <= |s| && s[i..i + |pat|] == pat
  }

  predicate Contains(s: string, pat: string) {
    exists i: nat | i <= |s| :: OccursAt(s, pat, i)
  }

  lemma OccursAtTail(s: string, pat: string, j: nat)
    requires |s| > 0
    ensures OccursAt(s, pat, j + 1) <==> OccursAt(s[1..], pat, j)
  {
    if j + 1 + |pat| <= |s| {
      assert s[j + 1..j + 1 + |pat|] == s[1..][j..j + |pat|];
    }
  }

  lemma OccursAtShift(s: string, t: string, pat: string, j: nat)
    ensures OccursAt(t, pat, j) ==> OccursAt(s + t, pat, |s| + j)
  {
    if OccursAt(t, pat, j) {
      assert (s + t)[|s| + j..|s| + j + |pat|] == t[j..j + |pat|];
    }
  }

  // ---------------------------------------------------------------------------
  // split

  /** The pieces of `s` around every `sep`, as `s.split(sep)` gives them for a one-character separator. */
  function Split(s: string, sep: char): (parts: seq<string>)
    ensures |parts| >= 1
    decreases |s|
  {
    if s == [] then [""]
    else
      var init := Split(s[..|s| - 1], sep);
      var c := Last(s);
      if c == sep then init + [""]
      else
        var k := |init|;
        init[..k - 1] + [init[k - 1] + [c]]
  }

  /** The pieces joined back with `sep` between them (`Array.prototype.join`). */
  function Join(parts: seq<string>, sep: char): string
    requires |parts| >= 1
    decreases |parts|
  {
    if |parts| == 1 then parts[0]
    else Join(parts[..|parts| - 1], sep) + [sep] + Last(parts)
  }

  /** Joined back with the separator, the pieces give the string. */
  lemma {:induction false} JoinSplit(s: string, sep: char)
    ensures Join(Split(s, sep), sep) == s
    decreases |s|
  {
    if s != [] {
      var init, c := s[..|s| - 1], Last(s);
      JoinSplit(init, sep);
      assert s == init + [c];
      SplitSnoc(init, c, sep);
      var P := Split(init, sep);
      if c == sep {
        JoinSnoc(P, "", sep);
      } else {
        JoinExtendLast(P, c, sep);
      }
    }
  }

  lemma JoinSnoc(P: seq<string>, x: string, sep: char)
    requires |P| >= 1
    ensures Join(P + [x], sep) == Join(P, sep) + [sep] + x
  {
    assert (P + [x])[..|P|] == P;
  }

  lemma JoinExtendLast(P: seq<string>, c: char, sep: char)
    requires |P| >= 1
    ensures Join(P[..|P| - 1] + [Last(P) + [c]], sep) == Join(P, sep) + [c]
  {
    var k := |P|;
    var Q := P[..k - 1] + [P[k - 1] + [c]];
    if k > 1 {
      assert Q[..k - 1] == P[..k - 1];
      assert Join(Q, sep) == Join(P[..k - 1], sep) + [sep] + (P[k - 1] + [c]);
    }
  }

  /** No piece holds the separator. */
  lemma {:induction false} SplitPiecesLackSeparator(s: string, sep: char)
    ensures forall i :: 0 <= i < |Split(s, sep)| ==> sep !in Split(s, sep)[i]
    decreases |s|
  {
    if s != [] {
      var init, c := s[..|s| - 1], Last(s);
      SplitPiecesLackSeparator(init, sep);
      assert s == init + [c];
      SplitSnoc(init, c, sep);
      var P := Split(init, sep);
      if c != sep {
        var Q := P[..|P| - 1] + [Last(P) + [c]];
        assert forall i :: 0 <= i < |Q| - 1 ==> Q[i] == P[i];
      }
    }
  }

  /** A string without the separator is one piece. */
  lemma {:induction false} SplitWithoutSeparator(s: string, sep: char)
    requires sep !in s
    ensures Split(s, sep) == [s]
    decreases |s|
  {
    if s != [] {
      assert sep !in s[..|s| - 1];
      SplitWithoutSeparator(s[..|s| - 1], sep);
      assert s == s[..|s| - 1] + [Last(s)];
    }
  }

  /** How `Split` grows when one character is appended. */
  lemma SplitSnoc(s: string, c: char, sep: char)
    ensures var P := Split(s, sep);
      Split(s + [c], sep) == if c == sep then P + [""] else P[..|P| - 1] + [Last(P) + [c]]
  {
    assert (s + [c])[..|s|] == s;
  }

  /** Splitting at a separator splits the two sides independently. */
  lemma {:induction false} SplitAtSeparator(a: string, b: string, sep: char)
    ensures Split(a + [sep] + b, sep) == Split(a, sep) + Split(b, sep)
    decreases |b|
  {
    if b == [] {
      assert a + [sep] + b == a + [sep];
      SplitSnoc(a, sep, sep);
    } else {
      var b', c := b[..|b| - 1], Last(b);
      var x := a + [sep] + b';
      assert b == b' + [c];
      assert a + [sep] + b == x + [c];
      SplitAtSeparator(a, b', sep);
      SplitSnoc(x, c, sep);
      SplitSnoc(b', c, sep);
      SnocPieces(Split(a, sep), Split(b', sep), c, sep);
    }
  }

  lemma SnocPieces(A: seq<string>, B: seq<string>, c: char, sep: char)
    requires |B| >= 1
    ensures var P := A + B;
      (if c == sep then P + [""] else P[..|P| - 1] + [Last(P) + [c]])
      == A + (if c == sep then B + [""] else B[..|B| - 1] + [Last(B) + [c]])
  {
    var P := A + B;
    assert P[..|P| - 1] == A + B[..|B| - 1];
  }

  /** `Split` undoes `Join` when no piece holds the separator. */
  lemma {:induction false} SplitJoin(parts: seq<string>, sep: char)
    requires |parts| >= 1
    requires forall i :: 0 <= i < |parts| ==> sep !in parts[i]
    ensures Split(Join(parts, sep), sep) == parts
    decreases |parts|
  {
    if |parts| == 1 {
      SplitWithoutSeparator(parts[0], sep);
    } else {
      var init := parts[..|parts| - 1];
      SplitJoin(init, sep);
      SplitAtSeparator(Join(init, sep), Last(parts), sep);
      SplitWithoutSeparator(Last(parts), sep);
      assert parts == init + [Last(parts)];
    }
  }

  // ---------------------------------------------------------------------------
  // replaceAll and replace

  /** `s.replaceAll(pat, rep)`: every occurrence of `pat`, scanning left to right without overlap, becomes `rep`. */
  function ReplaceAll(s: string, pat: string, rep: string): (r: string)
    requires pat != []
    ensures !Contains(s, pat) ==> r == s
    ensures forall c :: c in r ==> c in s || c in rep
    decreases |s|
  {
    if |s| < |pat| then s
    else if s[..|pat|] == pat then
      assert OccursAt(s, pat, 0);
      rep + ReplaceAll(s[|pat|..], pat, rep)
    else
      ContainsTail(s, pat);
      [s[0]] + ReplaceAll(s[1..], pat, rep)
  }

  /**
   * `ReplaceAll` against the first occurrence `IndexOf` finds: the text before it is kept, the
   * occurrence becomes `rep`, and the rest is replaced in the same way; without one, nothing changes.
   */
  lemma {:induction false} ReplaceAllAtFirstOccurrence(s: string, pat: string, rep: string)
    requires pat != []
    ensures IndexOf(s, pat).None? ==> ReplaceAll(s, pat, rep) == s
    ensures IndexOf(s, pat).Some? ==>
      var i := IndexOf(s, pat).value;
      ReplaceAll(s, pat, rep) == s[..i] + rep + ReplaceAll(s[i + |pat|..], pat, rep)
    decreases |s|
  {
    if |s| >= |pat| && s[..|pat|] != pat {
      var t := s[1..];
      ReplaceAllAtFirstOccurrence(t, pat, rep);
      ReplaceAllNoMatchHere(s, pat, rep);
      match IndexOf(t, pat)
      case None =>
        assert [s[0]] + t == s;
      case Some(j) =>
        assert IndexOf(s, pat) == Some(j + 1);
        ConsSplice(s, j, |pat|, rep, ReplaceAll(t[j + |pat|..], pat, rep));
        assert ReplaceAll(s, pat, rep) == s[..j + 1] + rep + ReplaceAll(s[j + 1 + |pat|..], pat, rep);
    } else if |s| >= |pat| {
      assert OccursAt(s, pat, 0);
      assert IndexOf(s, pat) == Some(0);
      assert ReplaceAll(s, pat, rep) == rep + ReplaceAll(s[|pat|..], pat, rep);
      assert s[..0] + rep == rep;
    } else {
      assert IndexOf(s, pat) == None;
      assert ReplaceAll(s, pat, rep) == s;
    }
  }

  /** A first character kept in front of a splice at `j` of the rest is the splice at `j + 1`. */
  lemma ConsSplice(s: string, j: nat, n: nat, rep: string, tail: string)
    requires 0 < |s| && j + n < |s|
    ensures s[1..][j + n..] == s[j + 1 + n..]
    ensures [s[0]] + (s[1..][..j] + rep + tail) == s[..j + 1] + rep + tail
  {
    assert [s[0]] + s[1..][..j] == s[..j + 1];
  }

  /** A replacement no longer than the pattern never lengthens the text. */
  lemma {:induction false} ReplaceAllShrinks(s: string, pat: string, rep: string)
    requires pat != [] && |rep| <= |pat|
    ensures |ReplaceAll(s, pat, rep)| <= |s|
    decreases |s|
  {
    if |s| >= |pat| {
      if s[..|pat|] == pat {
        ReplaceAllShrinks(s[|pat|..], pat, rep);
      } else {
        ReplaceAllShrinks(s[1..], pat, rep);
      }
    }
  }

  lemma ContainsTail(s: string, pat: string)
    requires |s| > 0
    ensures Contains(s[1..], pat) ==> Contains(s, pat)
  {
    if Contains(s[1..], pat) {
      var j: nat :| j <= |s[1..]| && OccursAt(s[1..], pat, j);
      OccursAtTail(s, pat, j);
    }
  }

  lemma ReplaceAllHead(s: string, pat: string, rep: string)
    requires pat != [] && rep != [] && |s| > 0
    ensures |ReplaceAll(s, pat, rep)| > 0
    ensures ReplaceAll(s, pat, rep)[0] == if OccursAt(s, pat, 0) then rep[0] else s[0]
  {
  }

  /** After `replaceAll("%20", "_")` no `%20` is left: the scan finds every occurrence and `_` cannot start a new one. */
  lemma {:induction false} ReplaceAllLeavesNoPercent20(s: string)
    ensures !Contains(ReplaceAll(s, "%20", "_"), "%20")
    decreases |s|
  {
    var pat := "%20";
    var r := ReplaceAll(s, pat, "_");
    if |s| < 3 {
    } else {
      var n := if s[..3] == pat then 3 else 1;
      var t := ReplaceAll(s[n..], pat, "_");
      ReplaceAllLeavesNoPercent20(s[n..]);
      assert r[1..] == t;
      forall i: nat | 0 < i <= |r| ensures !OccursAt(r, pat, i) {
        OccursAtTail(r, pat, i - 1);
      }
      if n == 1 {
        NoPercent20AtStart(s);
      } else {
        assert r == "_" + t;
        assert r[0] != pat[0];
      }
    }
  }

  lemma NoPercent20AtStart(s: string)
    requires |s| >= 3 && s[..3] != "%20"
    ensures !OccursAt(ReplaceAll(s, "%20", "_"), "%20", 0)
  {
    var pat := "%20";
    var r := ReplaceAll(s, pat, "_");
    ReplaceAllNoMatchHere(s, pat, "_");
    var t := ReplaceAll(s[1..], pat, "_");
    assert s[..3] == [s[0], s[1], s[2]];
    if |s| == 3 {
      assert r == s;
    } else if s[0] != '%' {
      MismatchAt(r, pat, 0);
    } else if OccursAt(s[1..], pat, 0) {
      ReplaceAllHead(s[1..], pat, "_");
      MismatchAt(r, pat, 1);
    } else {
      ReplaceAllNoMatchHere(s[1..], pat, "_");
      assert s[1..][1..] == s[2..];
      ReplaceAllHead(s[2..], pat, "_");
      if s[1] != '2' {
        MismatchAt(r, pat, 1);
      } else {
        MismatchAt(r, pat, 2);
      }
    }
  }

  /** Where `pat` does not start `s`, `ReplaceAll` keeps the first character and moves on. */
  lemma ReplaceAllNoMatchHere(s: string, pat: string, rep: string)
    requires pat != [] && |s| >= |pat| && s[..|pat|] != pat
    ensures ReplaceAll(s, pat, rep) == [s[0]] + ReplaceAll(s[1..], pat, rep)
  {
  }

  lemma MismatchAt(r: string, pat: string, k: nat)
    requires k < |pat| && k < |r| && r[k] != pat[k]
    ensures !OccursAt(r, pat, 0)
  {
    if |pat| <= |r| {
      assert r[..|pat|][k] == r[k];
    }
  }

  /** The index of the first occurrence of `pat` in `s` (`indexOf`). */
  function IndexOf(s: string, pat: string): (r: Option<nat>)
    requires pat != []
    ensures r.Some? ==> OccursAt(s, pat, r.value) && forall j: nat :: j < r.value ==> !OccursAt(s, pat, j)
    ensures r.None? <==> !Contains(s, pat)
    decreases |s|
  {
    if |s| < |pat| then None
    else if s[..|pat|] == pat then
      assert OccursAt(s, pat, 0);
      Some(0)
    else
      match IndexOf(s[1..], pat)
      case None =>
        ContainsNotAtStart(s, pat);
        None
      case Some(j) =>
        OccursAtTail(s, pat, j);
        assert forall k: nat :: k < j ==> (OccursAt(s, pat, k + 1) <==> OccursAt(s[1..], pat, k)) by {
          forall k: nat | k < j { OccursAtTail(s, pat, k); }
        }
        assert forall k: nat :: 0 < k < j + 1 ==> !OccursAt(s, pat, k) by {
          forall k: nat | 0 < k < j + 1 ensures !OccursAt(s, pat, k) { OccursAtTail(s, pat, k - 1); }
        }
        ContainsTail(s, pat);
        Some(j + 1)
  }

  lemma ContainsNotAtStart(s: string, pat: string)
    requires |s| > 0 && !OccursAt(s, pat, 0)
    ensures Contains(s, pat) ==> Contains(s[1..], pat)
  {
    if Contains(s, pat) {
      var i: nat :| i <= |s| && OccursAt(s, pat, i);
      assert i > 0;
      OccursAtTail(s, pat, i - 1);
    }
  }

  /** `s.replace(pat, rep)` with a string pattern: only the first occurrence becomes `rep`. */
  function ReplaceFirst(s: string, pat: string, rep: string): (r: string)
    requires pat != []
    ensures !Contains(s, pat) ==> r == s
    ensures forall i: nat :: OccursAt(s, pat, i) && (forall j: nat :: j < i ==> !OccursAt(s, pat, j)) ==>
      r == s[..i] + rep + s[i + |pat|..]
  {
    match IndexOf(s, pat)
    case None => s
    case Some(k) =>
      assert forall i: nat :: OccursAt(s, pat, i) && (forall j: nat :: j < i ==> !OccursAt(s, pat, j)) ==> i == k;
      s[..k] + rep + s[k + |pat|..]
  }

  /** Unlike `ReplaceAll`, `ReplaceFirst` leaves a second, later occurrence in place. */
  lemma ReplaceFirstKeepsLaterOccurrence(s: string, pat: string, rep: string, i: nat, j: nat)
    requires pat != []
    requires OccursAt(s, pat, i) && OccursAt(s, pat, j) && i + |pat| <= j
    ensures Contains(ReplaceFirst(s, pat, rep), pat)
  {
    assert Contains(s, pat) by { assert i <= |s|; }
    var k := IndexOf(s, pat).value;
    assert k <= i;
    assert ReplaceFirst(s, pat, rep) == s[..k] + rep + s[k + |pat|..];
    SpliceKeepsLaterOccurrence(s, pat, rep, k, j);
  }

  /** Replacing the text at `k` leaves an occurrence of `pat` that starts after it. */
  lemma SpliceKeepsLaterOccurrence(s: string, pat: string, rep: string, k: nat, j: nat)
    requires k + |pat| <= j && OccursAt(s, pat, j)
    ensures Contains(s[..k] + rep + s[k + |pat|..], pat)
  {
    var prefix, rest := s[..k] + rep, s[k + |pat|..];
    var m := j - |pat| - k;
    assert rest[m..m + |pat|] == s[j..j + |pat|];
    OccursAtShift(prefix, rest, pat, m);
    assert |prefix| + m <= |prefix + rest|;
  }

  // ---------------------------------------------------------------------------
  // Blank lines

  /** The characters `String.prototype.trim` removes: white space and line terminators. */
  predicate IsJsWhitespace(c: char) {
    || c == '\t' || c == '\n' || c == '\U{B}' || c == '\U{C}' || c == '\r' || c == ' '
    || c == '\U{A0}' || c == '\U{1680}' || ('\U{2000}' <= c <= '\U{200A}')
    || c == '\U{2028}' || c == '\U{2029}' || c == '\U{202F}' || c == '\U{205F}'
    || c == '\U{3000}' || c == '\U{FEFF}'
  }

  /** `line.trim() == ''`. */
  predicate IsBlank(line: string) {
    forall i :: 0 <= i < |line| ==> IsJsWhitespace(line[i])
  }

  /** A line is blank exactly when trimming its leading white space leaves nothing. */
  lemma BlankIsTrimmedEmpty(line: string)
    ensures IsBlank(line) <==> TrimStart(line) == []
  {
    var t := TrimStart(line);
    if t != [] {
      assert line[|line| - |t|] == t[0];
    }
  }

  // ---------------------------------------------------------------------------
  // Decimal numbers

  predicate IsDigit(c: char) {
    '0' <= c <= '9'
  }

  predicate AllDigits(s: string) {
    forall i :: 0 <= i < |s| ==> IsDigit(s[i])
  }

  function DigitChar(d: nat): (c: char)
    requires d < 10
    ensures IsDigit(c) && c as int - '0' as int == d
  {
    (d + '0' as int) as char
  }

  /** The decimal text of a natural number, without leading zeros. */
  function NatToString(n: nat): (s: string)
    ensures |s| >= 1 && AllDigits(s)
    ensures |s| > 1 ==> s[0] != '0'
    ensures n > 0 ==> s[0] != '0'
    decreases n
  {
    if n < 10 then [DigitChar(n)] else NatToString(n / 10) + [DigitChar(n % 10)]
  }

  /** `n.toString()` for an integer-valued number. */
  function IntToString(n: int): (s: string)
    ensures |s| >= 1
    ensures n >= 0 ==> AllDigits(s)
    ensures n < 0 ==> s[0] == '-' && AllDigits(s[1..])
    ensures n >= 0 && |s| > 1 ==> s[0] != '0'
    ensures n < 0 ==> |s| >= 2 && s[1] != '0'
  {
    if n < 0 then "-" + NatToString(-n) else NatToString(n)
  }

  /** The value of a string of decimal digits. */
  function DigitsValue(s: string): nat
    requires AllDigits(s)
    decreases |s|
  {
    if s == [] then 0 else DigitsValue(s[..|s| - 1]) * 10 + (Last(s) as int - '0' as int)
  }

  lemma {:induction false} DigitsValueOfNatToString(n: nat)
    ensures DigitsValue(NatToString(n)) == n
    decreases n
  {
    var s := NatToString(n);
    if n >= 10 {
      DigitsValueOfNatToString(n / 10);
      assert s[..|s| - 1] == NatToString(n / 10);
    }
  }

  /** The longest prefix of `s` made of decimal digits. */
  function DigitPrefix(s: string): (d: string)
    ensures AllDigits(d) && d <= s
    ensures |d| < |s| ==> !IsDigit(s[|d|])
    decreases |s|
  {
    if s != [] && IsDigit(s[0]) then [s[0]] + DigitPrefix(s[1..]) else []
  }

  lemma {:induction false} DigitPrefixOfDigits(s: string)
    requires AllDigits(s)
    ensures DigitPrefix(s) == s
    decreases |s|
  {
    if s != [] {
      DigitPrefixOfDigits(s[1..]);
    }
  }

  /** `s` without its leading white space (`trimStart`). */
  function TrimStart(s: string): (t: string)
    ensures |t| <= |s| && t == s[|s| - |t|..]
    ensures forall i :: 0 <= i < |s| - |t| ==> IsJsWhitespace(s[i])
    ensures t != [] ==> !IsJsWhitespace(t[0])
    decreases |s|
  {
    if s != [] && IsJsWhitespace(s[0]) then TrimStart(s[1..]) else s
  }

  /**
   * `parseInt(s, 10)`: skip leading white space, read an optional sign and then as many decimal
   * digits as follow; `None` stands for `NaN`, the result when there is no digit.
   */
  function ParseInt(s: string): (r: Option<int>)
    ensures s == [] || (!IsJsWhitespace(s[0]) && !IsDigit(s[0]) && s[0] != '-' && s[0] != '+') ==> r.None?
  {
    var t := TrimStart(s);
    var negative := t != [] && t[0] == '-';
    var rest := if t != [] && (t[0] == '-' || t[0] == '+') then t[1..] else t;
    var digits := DigitPrefix(rest);
    var magnitude: int := if digits == [] then 0 else DigitsValue(digits);
    if digits == [] then None
    else if negative then Some(-magnitude)
    else Some(magnitude)
  }

  /** `parseInt` of a string of digits is the number they spell. */
  lemma ParseIntOfDigits(s: string)
    requires s != [] && AllDigits(s)
    ensures ParseInt(s) == Some(DigitsValue(s))
  {
    assert !IsJsWhitespace(s[0]);
    assert TrimStart(s) == s;
    DigitPrefixOfDigits(s);
  }

  /** `parseInt` reads back what `toString` writes, for every integer. */
  lemma IntToStringRoundTrip(n: int)
    ensures ParseInt(IntToString(n)) == Some(n)
  {
    var s := IntToString(n);
    var m: nat := if n < 0 then -n else n;
    assert !IsJsWhitespace(s[0]);
    assert TrimStart(s) == s;
    DigitPrefixOfDigits(NatToString(m));
    DigitsValueOfNatToString(m);
    if n < 0 {
      assert s[1..] == NatToString(m);
    }
  }

  // ---------------------------------------------------------------------------
  // Ordering of strings (the default comparison of `toSorted`)

  /** `a` comes no later than `b` in character-by-character order. */
  predicate StrLe(a: string, b: string)
    decreases |a|
  {
    a == [] || (b != [] && (a[0] < b[0] || (a[0] == b[0] && StrLe(a[1..], b[1..]))))
  }

  lemma {:induction false} StrLeTotal(a: string, b: string)
    ensures StrLe(a, b) || StrLe(b, a)
    decreases |a|
  {
    if a != [] && b != [] && a[0] == b[0] {
      StrLeTotal(a[1..], b[1..]);
    }
  }

  lemma {:induction false} StrLeTransitive(a: string, b: string, c: string)
    requires StrLe(a, b) && StrLe(b, c)
    ensures StrLe(a, c)
    decreases |a|
  {
    if a != [] && a[0] == b[0] && b[0] == c[0] {
      StrLeTransitive(a[1..], b[1..], c[1..]);
    }
  }

  predicate Sorted(s: seq<string>) {
    forall i, j :: 0 <= i < j < |s| ==> StrLe(s[i], s[j])
  }

  function Insert(x: string, s: seq<string>): (r: seq<string>)
    ensures multiset(r) == multiset(s) + multiset{x}
    decreases |s|
  {
    if s == [] || StrLe(x, s[0]) then [x] + s
    else
      assert s == [s[0]] + s[1..];
      [s[0]] + Insert(x, s[1..])
  }

  lemma {:induction false} InsertKeepsSorted(x: string, s: seq<string>)
    requires Sorted(s)
    ensures Sorted(Insert(x, s))
    decreases |s|
  {
    var r := Insert(x, s);
    if s == [] {
    } else if StrLe(x, s[0]) {
      forall j | 0 < j < |r| ensures StrLe(r[0], r[j]) {
        if j > 1 { StrLeTransitive(x, s[0], s[j - 1]); }
      }
    } else {
      StrLeTotal(x, s[0]);
      var t := Insert(x, s[1..]);
      InsertKeepsSorted(x, s[1..]);
      assert r == [s[0]] + t;
      forall j | 0 < j < |r| ensures StrLe(r[0], r[j]) {
        assert r[j] in multiset(t);
        assert r[j] == x || r[j] in s[1..];
      }
    }
  }

  /** `toSorted()` on strings: the same strings, in ascending order. */
  function SortStrings(s: seq<string>): (r: seq<string>)
    ensures Sorted(r)
    ensures multiset(r) == multiset(s)
    decreases |s|
  {
    if s == [] then []
    else
      var t := SortStrings(s[1..]);
      InsertKeepsSorted(s[0], t);
      assert s == [s[0]] + s[1..];
      Insert(s[0], t)
  }

  predicate StartsWith(s: string, prefix: string) {
    prefix <= s
  }

  predicate EndsWith(s: string, suffix: string) {
    |suffix| <= |s| && s[|s| - |suffix|..] == suffix
  }
}
