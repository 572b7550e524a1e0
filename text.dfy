/** String primitives shared by the TypeScript and Python parts of the system:
    the two whitespace sets (ECMAScript `\s`/`trim` and Python `str.isspace`),
    trimming, substring search, `split`/`join`, `replace` and a fixed
    case-mapping table. */
module Text {
  import opened Wrappers

  /** Which language's notion of whitespace applies. */
  datatype Dialect = ECMAScript | Python

  /** ECMAScript WhiteSpace + LineTerminator (the set `trim` and `\s` use), or
      the characters for which Python's `str.isspace` holds. */
  predicate IsSpace(d: Dialect, c: char) {
    || c == ' '
    || ('\t' <= c <= '\r')
    || c == '\U{A0}' || c == '\U{1680}' || ('\U{2000}' <= c <= '\U{200A}')
    || c == '\U{2028}' || c == '\U{2029}' || c == '\U{202F}' || c == '\U{205F}' || c == '\U{3000}'
    || (d == ECMAScript && c == '\U{FEFF}')
    || (d == Python && (('\U{1C}' <= c <= '\U{1F}') || c == '\U{85}'))
  }

  /** Every character is whitespace (so `s.trim()` is empty). */
  predicate Blank(d: Dialect, s: string) {
    forall i :: 0 <= i < |s| ==> IsSpace(d, s[i])
  }

  function TrimEnd(d: Dialect, s: string): (r: string)
    ensures |r| <= |s| && r == s[..|r|]
    ensures Blank(d, s[|r|..])
    ensures r != [] ==> !IsSpace(d, r[|r| - 1])
  {
    if s != [] && IsSpace(d, s[|s| - 1]) then
      var r := TrimEnd(d, s[..|s| - 1]);
      assert Blank(d, s[|r|..]) by {
        forall i | 0 <= i < |s| - |r| ensures IsSpace(d, s[|r|..][i]) {
          if |r| + i < |s| - 1 {
            assert s[|r|..][i] == s[..|s| - 1][|r|..][i];
          }
        }
      }
      r
    else s
  }

  /** JavaScript `s.trim()` (ECMAScript) or Python `s.strip()` (Python): the
      leading whitespace is skipped, then the trailing whitespace is cut. */
  function Trim(d: Dialect, s: string): (r: string)
    ensures r == [] <==> Blank(d, s)
    ensures r != [] ==> !IsSpace(d, r[0]) && !IsSpace(d, r[|r| - 1])
    ensures |r| <= |s|
  {
    if s != [] && IsSpace(d, s[0]) then
      BlankCons(d, s);
      Trim(d, s[1..])
    else
      TrimEndOfUnpadded(d, s);
      TrimEnd(d, s)
  }

  lemma BlankCons(d: Dialect, s: string)
    requires s != [] && IsSpace(d, s[0])
    ensures Blank(d, s) <==> Blank(d, s[1..])
  {
    if Blank(d, s[1..]) {
      forall i | 0 <= i < |s| ensures IsSpace(d, s[i]) {
        if i > 0 { assert s[i] == s[1..][i - 1]; }
      }
    }
  }

  lemma TrimEndOfUnpadded(d: Dialect, s: string)
    requires s == [] || !IsSpace(d, s[0])
    ensures var r := TrimEnd(d, s);
      && (r == [] <==> Blank(d, s))
      && (r != [] ==> !IsSpace(d, r[0]))
  {
    var r := TrimEnd(d, s);
    assert s[0..] == s;
    if r != [] {
      assert r[0] == s[0];
    }
  }

  /** `s` is unchanged by trimming exactly when it has no whitespace at either end. */
  lemma TrimUnpadded(d: Dialect, s: string)
    requires s == [] || (!IsSpace(d, s[0]) && !IsSpace(d, s[|s| - 1]))
    ensures Trim(d, s) == s
  {
    assert TrimEnd(d, s) == s;
  }

  lemma TrimIdempotent(d: Dialect, s: string)
    ensures Trim(d, Trim(d, s)) == Trim(d, s)
  {
    var t := Trim(d, s);
    assert t == [] || (!IsSpace(d, t[0]) && !IsSpace(d, t[|t| - 1]));
    TrimUnpadded(d, t);
  }

  /** The number of whitespace characters `s` starts with. */
  function LeadingSpaces(d: Dialect, s: string): (n: nat)
    ensures n <= |s| && Blank(d, s[..n])
    ensures n < |s| ==> !IsSpace(d, s[n])
  {
    if s != [] && IsSpace(d, s[0]) then
      var n := 1 + LeadingSpaces(d, s[1..]);
      assert forall i :: 1 <= i < n ==> s[..n][i] == s[1..][..n - 1][i - 1];
      n
    else 0
  }

  /** `r` is what trimming leaves of `s`: the slice starting after the `n`
      leading whitespace characters, with only whitespace after it and none
      at either of its own ends.  These facts fix `r` for a given `s`. */
  predicate TrimmedAt(d: Dialect, s: string, r: string, n: nat) {
    && n + |r| <= |s| && r == s[n..n + |r|]
    && Blank(d, s[..n]) && Blank(d, s[n + |r|..])
    && (r != [] ==> !IsSpace(d, r[0]) && !IsSpace(d, r[|r| - 1]))
  }

  /** Trimming removes exactly the leading and the trailing whitespace. */
  lemma {:induction false} TrimSpec(d: Dialect, s: string)
    ensures TrimmedAt(d, s, Trim(d, s), LeadingSpaces(d, s))
    decreases |s|
  {
    if s != [] && IsSpace(d, s[0]) {
      TrimSpec(d, s[1..]);
      TrimSpecStep(d, s, Trim(d, s), LeadingSpaces(d, s[1..]));
    } else {
      var r := TrimEnd(d, s);
      assert Trim(d, s) == r;
      assert s[0..|r|] == s[..|r|];
    }
  }

  /** Trimming past one leading whitespace character. */
  lemma TrimSpecStep(d: Dialect, s: string, r: string, m: nat)
    requires s != [] && IsSpace(d, s[0])
    requires TrimmedAt(d, s[1..], r, m) && Blank(d, s[1..][..m])
    ensures TrimmedAt(d, s, r, m + 1)
  {
    var t := s[1..];
    assert s[m + 1..m + 1 + |r|] == t[m..m + |r|];
    assert s[m + 1 + |r|..] == t[m + |r|..];
    assert s[..m + 1] == [s[0]] + t[..m];
    BlankConcat(d, [s[0]], t[..m]);
  }

  lemma BlankConcat(d: Dialect, a: string, b: string)
    ensures Blank(d, a + b) <==> Blank(d, a) && Blank(d, b)
  {
    if Blank(d, a + b) {
      forall i | 0 <= i < |b| ensures IsSpace(d, b[i]) {
        assert b[i] == (a + b)[|a| + i];
      }
      forall i | 0 <= i < |a| ensures IsSpace(d, a[i]) {
        assert a[i] == (a + b)[i];
      }
    }
  }

  /** Joined with a blank separator, the pieces are blank together exactly
      when each piece is blank. */
  lemma {:induction false} JoinBlank(d: Dialect, parts: seq<string>, sep: string)
    requires Blank(d, sep)
    ensures Blank(d, JoinWith(parts, sep)) <==> forall i :: 0 <= i < |parts| ==> Blank(d, parts[i])
  {
    if |parts| > 1 {
      var tail := JoinWith(parts[1..], sep);
      JoinBlank(d, parts[1..], sep);
      BlankConcat(d, parts[0] + sep, tail);
      BlankConcat(d, parts[0], sep);
      assert forall i :: 1 <= i < |parts| ==> parts[i] == parts[1..][i - 1];
    }
  }

  // ---------------------------------------------------------------------
  // Substrings

  predicate OccursAt(s: string, sub: string, i: nat) {
    i + |sub| <= |s| && s[i..i + |sub|] == sub
  }

  /** The second part of a concatenation occurs right after the first. */
  lemma OccursAtEnd(a: string, b: string)
    ensures OccursAt(a + b, b, |a|)
  {
    assert (a + b)[|a|..|a| + |b|] == b;
  }

  /** An occurrence stays where it is when text is appended. */
  lemma OccursExtend(s: string, t: string, sub: string, i: nat)
    requires OccursAt(s, sub, i)
    ensures OccursAt(s + t, sub, i)
  {
    assert (s + t)[i..i + |sub|] == s[i..i + |sub|];
  }

  /** `sub` occurs somewhere in `s` (`s.includes(sub)`, Python `sub in s`). */
  predicate Contains(s: string, sub: string) {
    exists i: nat :: i <= |s| && OccursAt(s, sub, i)
  }

  predicate StartsWith(s: string, prefix: string) {
    |prefix| <= |s| && s[..|prefix|] == prefix
  }

  predicate EndsWith(s: string, suffix: string) {
    |suffix| <= |s| && s[|s| - |suffix|..] == suffix
  }

  /** Index of the leftmost occurrence of `sub` in `s` at or after `from`. */
  function FindFrom(s: string, sub: string, from: nat): (r: Option<nat>)
    requires from <= |s|
    ensures r.Some? ==> from <= r.value <= |s| && OccursAt(s, sub, r.value)
    ensures r.Some? ==> forall j: nat :: from <= j < r.value ==> !OccursAt(s, sub, j)
    ensures r.None? ==> forall j: nat :: from <= j <= |s| ==> !OccursAt(s, sub, j)
    decreases |s| - from
  {
    if OccursAt(s, sub, from) then Some(from)
    else if from == |s| then None
    else FindFrom(s, sub, from + 1)
  }

  lemma FindFromContains(s: string, sub: string)
    ensures FindFrom(s, sub, 0).Some? <==> Contains(s, sub)
  {
    if Contains(s, sub) {
      var i: nat :| i <= |s| && OccursAt(s, sub, i);
    }
  }

  /** Joins the pieces with `sep` between neighbours (`parts.join(sep)`). */
  function JoinWith(parts: seq<string>, sep: string): string {
    if parts == [] then ""
    else if |parts| == 1 then parts[0]
    else parts[0] + sep + JoinWith(parts[1..], sep)
  }

  /** JavaScript `s.split(sep)` and Python `s.split(sep)` for a non-empty
      separator: the pieces between leftmost non-overlapping occurrences. */
  function SplitOn(s: string, sep: string): (r: seq<string>)
    requires |sep| > 0
    ensures |r| >= 1
    decreases |s|
  {
    match FindFrom(s, sep, 0)
    case None => [s]
    case Some(k) => [s[..k]] + SplitOn(s[k + |sep|..], sep)
  }

  /** The leftmost occurrence fits inside the text. */
  lemma FoundFits(s: string, sub: string, k: nat)
    requires FindFrom(s, sub, 0) == Some(k)
    ensures k + |sub| <= |s|
  {
  }

  /** One step of the split: the piece before the leftmost occurrence, then
      the pieces of what follows it. */
  lemma SplitOnStep(s: string, sep: string, k: nat)
    requires |sep| > 0 && FindFrom(s, sep, 0) == Some(k) && k + |sep| <= |s|
    ensures SplitOn(s, sep) == [s[..k]] + SplitOn(s[k + |sep|..], sep)
  {
  }

  /** Joining the pieces with the separator gives the text back, no piece
      contains the separator, and there is more than one piece exactly when
      the text contains it. */
  lemma SplitOnSpec(s: string, sep: string)
    requires |sep| > 0
    ensures JoinWith(SplitOn(s, sep), sep) == s
    ensures forall i :: 0 <= i < |SplitOn(s, sep)| ==> !Contains(SplitOn(s, sep)[i], sep)
    ensures |SplitOn(s, sep)| >= 2 <==> Contains(s, sep)
  {
    SplitOnJoin(s, sep);
    SplitOnPiecesFree(s, sep);
    FindFromContains(s, sep);
  }

  lemma {:induction false} SplitOnJoin(s: string, sep: string)
    requires |sep| > 0
    ensures JoinWith(SplitOn(s, sep), sep) == s
    decreases |s|
  {
    match FindFrom(s, sep, 0)
    case None =>
    case Some(k) =>
      var tail := s[k + |sep|..];
      var rest := SplitOn(tail, sep);
      SplitOnJoin(tail, sep);
      assert SplitOn(s, sep) == [s[..k]] + rest;
      assert JoinWith([s[..k]] + rest, sep) == s[..k] + sep + JoinWith(rest, sep);
      assert s[k..k + |sep|] == sep;
      assert s == s[..k] + sep + tail;
  }

  /** The text before the leftmost occurrence does not contain `sub`. */
  lemma HeadFree(s: string, sub: string, k: nat)
    requires |sub| > 0 && FindFrom(s, sub, 0) == Some(k)
    ensures !Contains(s[..k], sub)
  {
    var head := s[..k];
    forall j: nat | j <= |head| && OccursAt(head, sub, j)
      ensures false
    {
      assert j < k;
      assert s[j..j + |sub|] == head[j..j + |sub|];
      assert OccursAt(s, sub, j);
    }
  }

  lemma {:induction false} SplitOnPiecesFree(s: string, sep: string)
    requires |sep| > 0
    ensures forall i :: 0 <= i < |SplitOn(s, sep)| ==> !Contains(SplitOn(s, sep)[i], sep)
    decreases |s|
  {
    match FindFrom(s, sep, 0)
    case None =>
      FindFromContains(s, sep);
    case Some(k) =>
      var tail := s[k + |sep|..];
      var rest := SplitOn(tail, sep);
      SplitOnPiecesFree(tail, sep);
      HeadFree(s, sep, k);
      assert SplitOn(s, sep) == [s[..k]] + rest;
  }

  /** Python `s.replace(old, new)`: every leftmost non-overlapping occurrence
      of `old` replaced. */
  function Replace(s: string, pattern: string, replacement: string): string
    requires |pattern| > 0
  {
    JoinWith(SplitOn(s, pattern), replacement)
  }

  /** `replace` read left to right: where `pattern` starts, `replacement`
      is written and the scan resumes after the pattern; any other character
      is copied. */
  function ReplaceScan(s: string, pattern: string, replacement: string): string
    requires |pattern| > 0
  {
    if s == [] then []
    else if |pattern| <= |s| && s[..|pattern|] == pattern then
      replacement + ReplaceScan(s[|pattern|..], pattern, replacement)
    else [s[0]] + ReplaceScan(s[1..], pattern, replacement)
  }

  /** Dropping the first character moves every occurrence one place left. */
  lemma OccursShift(s: string, sub: string, j: nat)
    requires s != []
    ensures OccursAt(s[1..], sub, j) <==> OccursAt(s, sub, j + 1)
  {
    if j + |sub| <= |s[1..]| {
      assert s[1..][j..j + |sub|] == s[j + 1..j + 1 + |sub|];
    }
  }

  /** Where the pattern does not start, the scan copies one character. */
  lemma ReplaceScanCopy(s: string, pattern: string, replacement: string)
    requires |pattern| > 0 && s != [] && !OccursAt(s, pattern, 0)
    ensures ReplaceScan(s, pattern, replacement) == [s[0]] + ReplaceScan(s[1..], pattern, replacement)
  {
    if |pattern| <= |s| {
      assert s[0..|pattern|] == s[..|pattern|];
    }
  }

  /** Before the first occurrence the scan copies; at it, it writes the
      replacement. */
  lemma {:induction false} ReplaceScanAt(s: string, pattern: string, replacement: string, k: nat)
    requires |pattern| > 0 && OccursAt(s, pattern, k)
    requires forall j: nat :: j < k ==> !OccursAt(s, pattern, j)
    ensures ReplaceScan(s, pattern, replacement)
      == s[..k] + replacement + ReplaceScan(s[k + |pattern|..], pattern, replacement)
    decreases k
  {
    if k == 0 {
      ReplaceScanHere(s, pattern, replacement);
      assert s[..0] + replacement == replacement;
    } else {
      var t := s[1..];
      ReplaceScanCopy(s, pattern, replacement);
      forall j: nat | j < k - 1 ensures !OccursAt(t, pattern, j) {
        OccursShift(s, pattern, j);
      }
      OccursShift(s, pattern, k - 1);
      ReplaceScanAt(t, pattern, replacement, k - 1);
      var after := ReplaceScan(s[k + |pattern|..], pattern, replacement);
      PrefixRegroup(s, k, |pattern|, replacement, after);
      calc {
        ReplaceScan(s, pattern, replacement);
        [s[0]] + ReplaceScan(t, pattern, replacement);
        [s[0]] + (t[..k - 1] + replacement + ReplaceScan(t[k - 1 + |pattern|..], pattern, replacement));
        [s[0]] + (t[..k - 1] + replacement + after);
        s[..k] + replacement + after;
      }
    }
  }

  /** Where the pattern starts, the scan writes the replacement. */
  lemma ReplaceScanHere(s: string, pattern: string, replacement: string)
    requires |pattern| > 0 && OccursAt(s, pattern, 0)
    ensures ReplaceScan(s, pattern, replacement) == replacement + ReplaceScan(s[|pattern|..], pattern, replacement)
  {
    assert s[0..|pattern|] == s[..|pattern|];
  }

  /** The sequence algebra of one step of `ReplaceScanAt`. */
  lemma PrefixRegroup(s: string, k: nat, m: nat, x: string, y: string)
    requires 0 < k && k + m <= |s|
    ensures s[1..][k - 1 + m..] == s[k + m..]
    ensures [s[0]] + (s[1..][..k - 1] + x + y) == s[..k] + x + y
  {
    assert s[1..][..k - 1] == s[1..k];
    assert s[..k] == [s[0]] + s[1..k];
  }

  /** Without an occurrence the scan copies everything. */
  lemma {:induction false} ReplaceScanAbsent(s: string, pattern: string, replacement: string)
    requires |pattern| > 0 && forall j: nat :: j <= |s| ==> !OccursAt(s, pattern, j)
    ensures ReplaceScan(s, pattern, replacement) == s
    decreases |s|
  {
    if s != [] {
      var t := s[1..];
      ReplaceScanCopy(s, pattern, replacement);
      forall j: nat | j <= |t| ensures !OccursAt(t, pattern, j) {
        OccursShift(s, pattern, j);
      }
      ReplaceScanAbsent(t, pattern, replacement);
    }
  }

  /** `replace` as defined by split and join is the left-to-right scan. */
  lemma {:induction false} ReplaceIsScan(s: string, pattern: string, replacement: string)
    requires |pattern| > 0
    ensures Replace(s, pattern, replacement) == ReplaceScan(s, pattern, replacement)
    decreases |s|
  {
    match FindFrom(s, pattern, 0)
    case None =>
      ReplaceScanAbsent(s, pattern, replacement);
    case Some(k) =>
      FoundFits(s, pattern, k);
      SplitOnStep(s, pattern, k);
      var tail := s[k + |pattern|..];
      var rest := SplitOn(tail, pattern);
      assert ([s[..k]] + rest)[1..] == rest;
      assert Replace(s, pattern, replacement) == s[..k] + replacement + Replace(tail, pattern, replacement);
      ReplaceIsScan(tail, pattern, replacement);
      ReplaceScanAt(s, pattern, replacement, k);
  }

  lemma JoinWithNoSep(parts: seq<string>, sep: string, c: char)
    requires forall i :: 0 <= i < |parts| ==> c !in parts[i]
    requires c !in sep
    ensures c !in JoinWith(parts, sep)
  {
  }

  /** After replacing every occurrence of the one-character `old`, none is left. */
  lemma {:induction false} ReplaceRemovesChar(s: string, c: char, replacement: string)
    requires c !in replacement
    ensures c !in Replace(s, [c], replacement)
  {
    var parts := SplitOn(s, [c]);
    SplitOnSpec(s, [c]);
    forall i | 0 <= i < |parts| ensures c !in parts[i] {
      if c in parts[i] {
        var j :| 0 <= j < |parts[i]| && parts[i][j] == c;
        assert OccursAt(parts[i], [c], j);
      }
    }
    JoinWithNoSep(parts, replacement, c);
  }

  /** A text that does not contain the pattern is left as it is. */
  lemma ReplaceAbsent(s: string, pattern: string, replacement: string)
    requires |pattern| > 0 && !Contains(s, pattern)
    ensures Replace(s, pattern, replacement) == s
  {
    var parts := SplitOn(s, pattern);
    SplitOnSpec(s, pattern);
    assert |parts| == 1;
  }

  /** A pattern whose first character does not occur in the text does not occur in it. */
  lemma AbsentFirstChar(s: string, pattern: string)
    requires |pattern| > 0 && pattern[0] !in s
    ensures !Contains(s, pattern)
  {
  }

  // ---------------------------------------------------------------------
  // Case mapping: Basic Latin and the Cyrillic block U+0400..U+045F.

  predicate IsUpperLetter(c: char) {
    ('A' <= c <= 'Z') || ('\U{400}' <= c <= '\U{42F}')
  }

  predicate IsLowerLetter(c: char) {
    ('a' <= c <= 'z') || ('\U{430}' <= c <= '\U{45F}')
  }

  /** `toLowerCase` / `str.lower` on one character. */
  function Lower(c: char): (r: char)
    ensures IsUpperLetter(c) ==> IsLowerLetter(r)
    ensures !IsUpperLetter(c) ==> r == c
  {
    if 'A' <= c <= 'Z' then (c as int + 32) as char
    else if '\U{410}' <= c <= '\U{42F}' then (c as int + 32) as char
    else if '\U{400}' <= c <= '\U{40F}' then (c as int + 80) as char
    else c
  }

  /** `toUpperCase` / `str.upper` on one character. */
  function Upper(c: char): (r: char)
    ensures IsLowerLetter(c) ==> IsUpperLetter(r) && Lower(r) == c
    ensures !IsLowerLetter(c) ==> r == c
  {
    if 'a' <= c <= 'z' then (c as int - 32) as char
    else if '\U{430}' <= c <= '\U{44F}' then (c as int - 32) as char
    else if '\U{450}' <= c <= '\U{45F}' then (c as int - 80) as char
    else c
  }

  function LowerStr(s: string): (r: string)
    ensures |r| == |s| && forall i :: 0 <= i < |s| ==> r[i] == Lower(s[i])
  {
    if s == [] then [] else [Lower(s[0])] + LowerStr(s[1..])
  }

  function UpperStr(s: string): (r: string)
    ensures |r| == |s| && forall i :: 0 <= i < |s| ==> r[i] == Upper(s[i])
  {
    if s == [] then [] else [Upper(s[0])] + UpperStr(s[1..])
  }

  // ---------------------------------------------------------------------
  // Numbers and repetition

  predicate IsDigit(c: char) { '0' <= c <= '9' }

  /** Value of a run of decimal digits (Python `int(...)` on it). */
  function DigitsValue(s: string): nat
    requires forall i :: 0 <= i < |s| ==> IsDigit(s[i])
  {
    assert s == [] || IsDigit(s[|s| - 1]);
    if s == [] then 0
    else 10 * DigitsValue(s[..|s| - 1]) + (s[|s| - 1] as int - '0' as int)
  }

  function DigitChar(d: nat): (c: char)
    requires d < 10
    ensures IsDigit(c)
  {
    ('0' as int + d) as char
  }

  /** Decimal rendering of a natural number (`str(n)`, template `${n}`). */
  function NatToString(n: nat): (r: string)
    ensures |r| >= 1
    ensures forall i :: 0 <= i < |r| ==> IsDigit(r[i])
    ensures DigitsValue(r) == n
    decreases n
  {
    if n < 10 then [DigitChar(n)]
    else
      var r := NatToString(n / 10) + [DigitChar(n % 10)];
      assert r[..|r| - 1] == NatToString(n / 10);
      r
  }

  /** `c * n` in Python. */
  function Repeat(c: char, n: nat): (r: string)
    ensures |r| == n && forall i :: 0 <= i < n ==> r[i] == c
  {
    seq(n, _ => c)
  }
}
