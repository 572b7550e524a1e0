/** The summary panel of the virtual-director page: a line-by-line parser that
    splits the synthesis text into four sections opened by bold headings at the
    start of a line, the binary verdict read from the decision section, and the
    choice between structured blocks, the raw text and the "no data" status. */
module SummaryView {
  import opened Wrappers
  import opened Text

  /** The four recognised section headings, in the regex's alternation order. */
  datatype Key = Agenda | Decision | ShortSummary | Justification

  function Title(k: Key): string {
    match k
    case Agenda => "ПУНКТ ПОВЕСТКИ ДНЯ"
    case Decision => "РЕШЕНИЕ НЕЗАВИСИМОГО ЧЛЕНА СД"
    case ShortSummary => "КРАТКОЕ ЗАКЛЮЧЕНИЕ"
    case Justification => "ОБОСНОВАНИЕ"
  }

  /** The bold heading token `**TITLE:**` that opens a section. */
  function Marker(k: Key): string {
    "**" + Title(k) + ":**"
  }

  /** The regex's alternatives, in the order it tries them. */
  const Alternatives: seq<Key> := [Agenda, Decision, ShortSummary, Justification]

  /** A matched heading line: the section it opens (`match[1]`) and the text
      after the marker (`line.replace(sectionRegex, '')`). */
  datatype Heading = Heading(key: Key, rest: string)

  /** The first of `alternatives` whose marker starts `line`. */
  function MatchFirst(line: string, alternatives: seq<Key>): (r: Option<Heading>)
    ensures r.Some? ==> r.value.key in alternatives && line == Marker(r.value.key) + r.value.rest
    ensures r.None? ==> forall k :: k in alternatives ==> !StartsWith(line, Marker(k))
  {
    if alternatives == [] then None
    else if StartsWith(line, Marker(alternatives[0])) then
      var rest := line[|Marker(alternatives[0])|..];
      assert line == Marker(alternatives[0]) + rest;
      Some(Heading(alternatives[0], rest))
    else MatchFirst(line, alternatives[1..])
  }

  /** `line.match(sectionRegex)`, anchored at the start of the line. */
  function MatchHeading(line: string): (r: Option<Heading>)
    ensures r.Some? ==> line == Marker(r.value.key) + r.value.rest
    ensures r.None? ==> forall k: Key :: !StartsWith(line, Marker(k))
  {
    EveryKeyIsAnAlternative();
    MatchFirst(line, Alternatives)
  }

  lemma EveryKeyIsAnAlternative()
    ensures forall k: Key :: k in Alternatives
  {
    forall k: Key ensures k in Alternatives {
      match k
      case Agenda => assert Alternatives[0] == k;
      case Decision => assert Alternatives[1] == k;
      case ShortSummary => assert Alternatives[2] == k;
      case Justification => assert Alternatives[3] == k;
    }
  }

  /** A line classifier: the heading a line is, if any. The parser and its
      description below are stated for any classifier; the page uses
      `MatchHeading`. */
  type Classifier = string -> Option<Heading>

  /** The lines a heading line starts its section with: the text after the
      marker, trimmed, and only if it is non-empty. */
  function Opening(h: Heading): (r: seq<string>)
    ensures |r| <= 1
    ensures forall i :: 0 <= i < |r| ==> r[i] == Trim(ECMAScript, h.rest) && r[i] != ""
    ensures Trim(ECMAScript, h.rest) != "" ==> |r| == 1
  {
    var remainder := Trim(ECMAScript, h.rest);
    if remainder != "" then [remainder] else []
  }

  /** `line` is a heading that opens section `k`. */
  predicate Opens(classify: Classifier, line: string, k: Key) {
    classify(line).Some? && classify(line).value.key == k
  }

  /** The parser's state: the section most recently opened, and the lines
      collected for each section seen so far. */
  datatype ParseState = ParseState(current: Option<Key>, sections: map<Key, seq<string>>)

  function Section(sections: map<Key, seq<string>>, k: Key): seq<string> {
    if k in sections then sections[k] else []
  }

  /** One iteration of the parsing loop. */
  function Step(classify: Classifier, st: ParseState, line: string): ParseState {
    match classify(line)
    case Some(h) => ParseState(Some(h.key), st.sections[h.key := Opening(h)])
    case None =>
      match st.current
      case Some(c) => ParseState(st.current, st.sections[c := Section(st.sections, c) + [line]])
      case None => st
  }

  /** The state after the loop has consumed `lines`. */
  function ParseLines(classify: Classifier, lines: seq<string>): ParseState {
    if lines == [] then ParseState(None, map[])
    else Step(classify, ParseLines(classify, lines[..|lines| - 1]), lines[|lines| - 1])
  }

  /** The parsing loop over the lines of the summary; the page passes
      `MatchHeading` as the classifier. */
  method ParseSections(classify: Classifier, lines: seq<string>) returns (current: Option<Key>, sections: map<Key, seq<string>>)
    ensures ParseState(current, sections) == ParseLines(classify, lines)
  {
    current := None;
    sections := map[];
    for i := 0 to |lines|
      invariant ParseState(current, sections) == ParseLines(classify, lines[..i])
    {
      assert lines[..i + 1][..i] == lines[..i];
      var line := lines[i];
      ghost var before := ParseState(current, sections);
      assert ParseLines(classify, lines[..i + 1]) == Step(classify, before, line);
      var match_ := classify(line);
      if match_.Some? {
        current := Some(match_.value.key);
        sections := sections[current.value := []];
        var remainder := Trim(ECMAScript, match_.value.rest);
        if remainder != "" {
          assert [] + [remainder] == [remainder];
          sections := sections[current.value := sections[current.value] + [remainder]];
        }
        assert sections == before.sections[current.value := Opening(match_.value)];
        continue;
      }
      if current.Some? {
        sections := sections[current.value := Section(sections, current.value) + [line]];
      }
    }
    assert lines[..|lines|] == lines;
  }

  // ---------------------------------------------------------------------
  // An independent description of the parse: where each section begins and ends.

  /** Index of the last heading line, if any. */
  function LastHeading(classify: Classifier, lines: seq<string>): (r: Option<nat>)
    ensures r.Some? ==> r.value < |lines| && classify(lines[r.value]).Some?
    ensures r.Some? ==> forall j :: r.value < j < |lines| ==> classify(lines[j]).None?
    ensures r.None? ==> forall j :: 0 <= j < |lines| ==> classify(lines[j]).None?
  {
    if lines == [] then None
    else if classify(lines[|lines| - 1]).Some? then Some(|lines| - 1)
    else LastHeading(classify, lines[..|lines| - 1])
  }

  /** Index of the last line that opens section `k`, if any. */
  function LastHeadingOf(classify: Classifier, lines: seq<string>, k: Key): (r: Option<nat>)
    ensures r.Some? ==> r.value < |lines| && Opens(classify, lines[r.value], k)
    ensures r.Some? ==> forall j :: r.value < j < |lines| ==> !Opens(classify, lines[j], k)
    ensures r.None? ==> forall j :: 0 <= j < |lines| ==> !Opens(classify, lines[j], k)
  {
    if lines == [] then None
    else if Opens(classify, lines[|lines| - 1], k) then Some(|lines| - 1)
    else LastHeadingOf(classify, lines[..|lines| - 1], k)
  }

  /** The lines before the first heading line. */
  function UntilHeading(classify: Classifier, lines: seq<string>): (r: seq<string>)
    ensures |r| <= |lines| && r == lines[..|r|]
    ensures forall j :: 0 <= j < |r| ==> classify(r[j]).None?
    ensures |r| < |lines| ==> classify(lines[|r|]).Some?
  {
    if lines == [] || classify(lines[0]).Some? then []
    else [lines[0]] + UntilHeading(classify, lines[1..])
  }

  lemma {:induction false} UntilHeadingAppend(classify: Classifier, lines: seq<string>, x: string)
    ensures UntilHeading(classify, lines + [x]) ==
      if LastHeading(classify, lines).Some? || classify(x).Some? then UntilHeading(classify, lines)
      else lines + [x]
  {
    if lines == [] {
      assert lines + [x] == [x];
    } else {
      assert (lines + [x])[1..] == lines[1..] + [x];
      if classify(lines[0]).None? {
        UntilHeadingAppend(classify, lines[1..], x);
        var tail := LastHeading(classify, lines[1..]);
        if tail.Some? {
          assert lines[1..][tail.value] == lines[tail.value + 1];
        }
        if LastHeading(classify, lines).Some? {
          var j := LastHeading(classify, lines).value;
          assert j == 0 || lines[1..][j - 1] == lines[j];
        }
      }
    }
  }

  /** What each section holds, stated without the loop: the current section is
      the one opened by the last heading line; a section exists exactly when some
      line opens it; and it holds the opening remainder of its LAST heading line
      followed by the lines up to the next heading. */
  predicate Described(classify: Classifier, lines: seq<string>, st: ParseState) {
    && st.current == CurrentOf(classify, lines)
    && (forall k: Key :: k in st.sections <==> LastHeadingOf(classify, lines, k).Some?)
    && (forall k: Key :: SectionDescribed(classify, lines, st.sections, k))
  }

  /** The section opened by the last heading line, if any. */
  function CurrentOf(classify: Classifier, lines: seq<string>): Option<Key> {
    match LastHeading(classify, lines)
    case None => None
    case Some(j) => Some(classify(lines[j]).value.key)
  }

  predicate SectionDescribed(classify: Classifier, lines: seq<string>, sections: map<Key, seq<string>>, k: Key) {
    LastHeadingOf(classify, lines, k).Some? ==>
      var j := LastHeadingOf(classify, lines, k).value;
      k in sections && sections[k] == Opening(classify(lines[j]).value) + UntilHeading(classify, lines[j + 1..])
  }

  /** The parsing loop computes exactly the sections `Described` states. */
  lemma {:induction false} ParseLinesDescribed(classify: Classifier, lines: seq<string>)
    ensures Described(classify, lines, ParseLines(classify, lines))
  {
    if lines == [] {
      return;
    }
    var prefix := lines[..|lines| - 1];
    var x := lines[|lines| - 1];
    assert lines == prefix + [x];
    ParseLinesDescribed(classify, prefix);
    StepDescribed(classify, prefix, x, ParseLines(classify, prefix));
  }

  /** One more line keeps the description true. */
  lemma {:induction false} StepDescribed(classify: Classifier, prefix: seq<string>, x: string, st: ParseState)
    requires Described(classify, prefix, st)
    ensures Described(classify, prefix + [x], Step(classify, st, x))
  {
    var lines := prefix + [x];
    var st' := Step(classify, st, x);
    LastHeadingAppend(classify, prefix, x);
    forall k: Key ensures k in st'.sections <==> LastHeadingOf(classify, lines, k).Some? {
      LastHeadingOfAppend(classify, prefix, x, k);
    }
    forall k: Key ensures SectionDescribed(classify, lines, st'.sections, k) {
      LastHeadingOfAppend(classify, prefix, x, k);
      assert SectionDescribed(classify, prefix, st.sections, k);
      if classify(x).Some? {
        SectionAfterHeading(classify, prefix, x, st, k);
      } else {
        SectionAfterBody(classify, prefix, x, st, k);
      }
    }
  }

  lemma {:induction false} LastHeadingAppend(classify: Classifier, prefix: seq<string>, x: string)
    ensures LastHeading(classify, prefix + [x]) == if classify(x).Some? then Some(|prefix|) else LastHeading(classify, prefix)
  {
    assert (prefix + [x])[..|prefix|] == prefix;
  }

  lemma {:induction false} LastHeadingOfAppend(classify: Classifier, prefix: seq<string>, x: string, k: Key)
    ensures LastHeadingOf(classify, prefix + [x], k) ==
      if Opens(classify, x, k) then Some(|prefix|) else LastHeadingOf(classify, prefix, k)
  {
    assert (prefix + [x])[..|prefix|] == prefix;
  }

  lemma SuffixOfAppend(prefix: seq<string>, x: string, i: nat)
    requires i <= |prefix|
    ensures (prefix + [x])[i..] == prefix[i..] + [x]
  {
  }

  lemma {:induction false} SectionAfterHeading(classify: Classifier, prefix: seq<string>, x: string, st: ParseState, k: Key)
    requires SectionDescribed(classify, prefix, st.sections, k)
    requires classify(x).Some?
    requires LastHeadingOf(classify, prefix + [x], k) ==
      if Opens(classify, x, k) then Some(|prefix|) else LastHeadingOf(classify, prefix, k)
    ensures SectionDescribed(classify, prefix + [x], Step(classify, st, x).sections, k)
  {
    if Opens(classify, x, k) {
      assert (prefix + [x])[|prefix + [x]| - 1] == x;
      SectionAfterOwnHeading(classify, prefix + [x], st, k);
    } else {
      SectionAfterOtherHeading(classify, prefix, x, st, k);
    }
  }

  /** A heading line for `k` starts the section afresh. */
  lemma SectionAfterOwnHeading(classify: Classifier, lines: seq<string>, st: ParseState, k: Key)
    requires lines != [] && Opens(classify, lines[|lines| - 1], k)
    ensures SectionDescribed(classify, lines, Step(classify, st, lines[|lines| - 1]).sections, k)
  {
    var j := |lines| - 1;
    var h := classify(lines[j]).value;
    assert LastHeadingOf(classify, lines, k) == Some(j);
    assert Step(classify, st, lines[j]).sections == st.sections[k := Opening(h)];
    assert lines[j + 1..] == [];
    assert UntilHeading(classify, lines[j + 1..]) == [];
    assert Opening(h) + [] == Opening(h);
  }

  /** A heading line for another section leaves section `k` as it was. */
  lemma SectionAfterOtherHeading(classify: Classifier, prefix: seq<string>, x: string, st: ParseState, k: Key)
    requires SectionDescribed(classify, prefix, st.sections, k)
    requires classify(x).Some? && !Opens(classify, x, k)
    requires LastHeadingOf(classify, prefix + [x], k) == LastHeadingOf(classify, prefix, k)
    ensures SectionDescribed(classify, prefix + [x], Step(classify, st, x).sections, k)
  {
    var h := classify(x).value;
    assert h.key != k;
    var sections' := st.sections[h.key := Opening(h)];
    assert Step(classify, st, x).sections == sections';
    KeptUnderHeading(classify, prefix, x, st.sections, k, sections');
  }

  /** A heading line that leaves section `k`'s lines alone keeps it described. */
  lemma KeptUnderHeading(classify: Classifier, prefix: seq<string>, x: string,
                         sections: map<Key, seq<string>>, k: Key, sections': map<Key, seq<string>>)
    requires SectionDescribed(classify, prefix, sections, k)
    requires classify(x).Some?
    requires LastHeadingOf(classify, prefix + [x], k) == LastHeadingOf(classify, prefix, k)
    requires k in sections ==> k in sections' && sections'[k] == sections[k]
    ensures SectionDescribed(classify, prefix + [x], sections', k)
  {
    var r := LastHeadingOf(classify, prefix, k);
    if r.Some? {
      var j := r.value;
      var lines := prefix + [x];
      HeadingKeepsTail(classify, prefix, x, j);
      assert lines[j] == prefix[j];
      var body := Opening(classify(prefix[j]).value) + UntilHeading(classify, prefix[j + 1..]);
      assert sections[k] == body;
      assert sections'[k] == Opening(classify(lines[j]).value) + UntilHeading(classify, lines[j + 1..]);
    }
  }

  /** Appending a heading line does not change what follows an earlier line
      up to the next heading. */
  lemma HeadingKeepsTail(classify: Classifier, prefix: seq<string>, x: string, j: nat)
    requires j < |prefix| && classify(x).Some?
    ensures (prefix + [x])[j] == prefix[j]
    ensures UntilHeading(classify, (prefix + [x])[j + 1..]) == UntilHeading(classify, prefix[j + 1..])
  {
    SuffixOfAppend(prefix, x, j + 1);
    UntilHeadingAppend(classify, prefix[j + 1..], x);
  }

  lemma {:induction false} SectionAfterBody(classify: Classifier, prefix: seq<string>, x: string, st: ParseState, k: Key)
    requires SectionDescribed(classify, prefix, st.sections, k)
    requires st.current == CurrentOf(classify, prefix)
    requires classify(x).None?
    requires LastHeadingOf(classify, prefix + [x], k) == LastHeadingOf(classify, prefix, k)
    ensures SectionDescribed(classify, prefix + [x], Step(classify, st, x).sections, k)
  {
    var r := LastHeadingOf(classify, prefix, k);
    if r.Some? {
      var j := r.value;
      var last := LastHeading(classify, prefix);
      assert last.Some? by {
        assert classify(prefix[j]).Some?;
      }
      var c := classify(prefix[last.value]).value.key;
      assert st.current == Some(c);
      LastHeadingIsLastOfItsKey(classify, prefix, c);
      var sections' := st.sections[c := Section(st.sections, c) + [x]];
      assert Step(classify, st, x).sections == sections';
      if k == c {
        BodyExtendsCurrent(classify, prefix, x, st.sections, k);
      } else {
        BodyLeavesOther(classify, prefix, x, st.sections, k, sections');
      }
    }
  }

  /** A body line is appended to the section of the last heading. */
  lemma {:induction false} BodyExtendsCurrent(classify: Classifier, prefix: seq<string>, x: string,
                                              sections: map<Key, seq<string>>, k: Key)
    requires SectionDescribed(classify, prefix, sections, k)
    requires LastHeadingOf(classify, prefix, k).Some?
    requires LastHeading(classify, prefix) == LastHeadingOf(classify, prefix, k)
    requires classify(x).None?
    requires LastHeadingOf(classify, prefix + [x], k) == LastHeadingOf(classify, prefix, k)
    ensures SectionDescribed(classify, prefix + [x], sections[k := Section(sections, k) + [x]], k)
  {
    var j := LastHeadingOf(classify, prefix, k).value;
    TailAfterLastHeading(classify, prefix, x, j);
    var o := Opening(classify(prefix[j]).value);
    assert (o + prefix[j + 1..]) + [x] == o + (prefix[j + 1..] + [x]);
  }

  /** After the last heading, every line (and a body line appended) belongs
      to that heading's section. */
  lemma {:induction false} TailAfterLastHeading(classify: Classifier, prefix: seq<string>, x: string, j: nat)
    requires LastHeading(classify, prefix) == Some(j)
    requires classify(x).None?
    ensures (prefix + [x])[j] == prefix[j]
    ensures UntilHeading(classify, prefix[j + 1..]) == prefix[j + 1..]
    ensures UntilHeading(classify, (prefix + [x])[j + 1..]) == prefix[j + 1..] + [x]
  {
    assert (prefix + [x])[j + 1..] == prefix[j + 1..] + [x];
    NoHeadingAfter(classify, prefix, j);
    UntilHeadingAppend(classify, prefix[j + 1..], x);
  }

  /** A section whose heading is not the last one is closed: a body line
      leaves it unchanged. */
  lemma {:induction false} BodyLeavesOther(classify: Classifier, prefix: seq<string>, x: string,
                                           sections: map<Key, seq<string>>, k: Key, sections': map<Key, seq<string>>)
    requires SectionDescribed(classify, prefix, sections, k)
    requires LastHeadingOf(classify, prefix, k).Some?
    requires LastHeading(classify, prefix).Some? && LastHeading(classify, prefix) != LastHeadingOf(classify, prefix, k)
    requires k in sections' && sections'[k] == sections[k]
    requires LastHeadingOf(classify, prefix + [x], k) == LastHeadingOf(classify, prefix, k)
    ensures SectionDescribed(classify, prefix + [x], sections', k)
  {
    var j := LastHeadingOf(classify, prefix, k).value;
    var jl := LastHeading(classify, prefix).value;
    assert classify(prefix[j]).Some?;
    assert j < jl;
    TailKeepsSection(classify, prefix, x, j, jl);
  }

  /** A section followed by a later heading is not extended by a new line. */
  lemma TailKeepsSection(classify: Classifier, prefix: seq<string>, x: string, j: nat, jl: nat)
    requires j < jl < |prefix| && classify(prefix[jl]).Some?
    ensures (prefix + [x])[j] == prefix[j]
    ensures UntilHeading(classify, (prefix + [x])[j + 1..]) == UntilHeading(classify, prefix[j + 1..])
  {
    var tail := prefix[j + 1..];
    assert tail[jl - j - 1] == prefix[jl];
    assert LastHeading(classify, tail).Some?;
    UntilHeadingAppend(classify, tail, x);
    SuffixOfAppend(prefix, x, j + 1);
  }

  lemma {:induction false} LastHeadingIsLastOfItsKey(classify: Classifier, lines: seq<string>, c: Key)
    requires LastHeading(classify, lines).Some?
    requires Opens(classify, lines[LastHeading(classify, lines).value], c)
    ensures LastHeadingOf(classify, lines, c) == LastHeading(classify, lines)
  {
    var j := LastHeading(classify, lines).value;
    var r := LastHeadingOf(classify, lines, c);
    assert r.Some?;
    assert r.value <= j;
    assert !(r.value < j);
  }

  lemma {:induction false} NoHeadingAfter(classify: Classifier, lines: seq<string>, j: nat)
    requires j < |lines| && forall i :: j < i < |lines| ==> classify(lines[i]).None?
    ensures LastHeading(classify, lines[j + 1..]).None?
    ensures UntilHeading(classify, lines[j + 1..]) == lines[j + 1..]
  {
    var rest := lines[j + 1..];
    forall i | 0 <= i < |rest| ensures classify(rest[i]).None? {
      assert rest[i] == lines[j + 1 + i];
    }
    var u := UntilHeading(classify, rest);
    assert |u| == |rest|;
  }

  /** With no heading line at all, no section is ever opened. */
  lemma {:induction false} NoHeadingNoSections(classify: Classifier, lines: seq<string>)
    requires forall j :: 0 <= j < |lines| ==> classify(lines[j]).None?
    ensures ParseLines(classify, lines).sections == map[]
  {
    ParseLinesDescribed(classify, lines);
    var st := ParseLines(classify, lines);
    forall k: Key ensures k !in st.sections {
    }
    assert st.sections.Keys == {};
  }

  /** A line that starts with none of the four markers is no heading. */
  lemma NoMarkerNoHeading(line: string)
    requires forall k: Key :: !StartsWith(line, Marker(k))
    ensures MatchHeading(line).None?
  {
  }

  /** A line whose character at `i` differs from the marker's is not opened by it. */
  lemma MismatchNotMarker(line: string, k: Key, i: nat)
    requires i < |line| && i < |Marker(k)| && line[i] != Marker(k)[i]
    ensures !StartsWith(line, Marker(k))
  {
  }

  /** The headings of the response format the server prompt asks for are not
      among the four recognised ones, so such lines open no section. */
  lemma ServerTemplateHeadingsNotRecognised(rest: string)
    ensures MatchHeading("**ТЕМА ПОВЕСТКИ ДНЯ:**" + rest).None?
    ensures MatchHeading("**РЕШЕНИЕ ВИРТУАЛЬНОГО ДИРЕКТОРА:**" + rest).None?
    ensures MatchHeading("**КРАТКОЕ ОБОСНОВАНИЕ:**" + rest).None?
    ensures MatchHeading("**ОБОСНОВАНИЕ ПО ВОПРОСУ:**" + rest).None?
  {
    TopicHeadingNotRecognised(rest);
    DirectorHeadingNotRecognised(rest);
    BriefHeadingNotRecognised(rest);
    GroundsHeadingNotRecognised(rest);
  }

  lemma TopicHeadingNotRecognised(rest: string)
    ensures MatchHeading("**ТЕМА ПОВЕСТКИ ДНЯ:**" + rest).None?
  {
    var a := "**ТЕМА ПОВЕСТКИ ДНЯ:**" + rest;
    assert a[2] == 'Т';
    MismatchNotMarker(a, Agenda, 2);
    MismatchNotMarker(a, Decision, 2);
    MismatchNotMarker(a, ShortSummary, 2);
    MismatchNotMarker(a, Justification, 2);
    forall k: Key ensures !StartsWith(a, Marker(k)) {
      match k
      case Agenda =>
      case Decision =>
      case ShortSummary =>
      case Justification =>
    }
    NoMarkerNoHeading(a);
  }

  lemma DirectorHeadingNotRecognised(rest: string)
    ensures MatchHeading("**РЕШЕНИЕ ВИРТУАЛЬНОГО ДИРЕКТОРА:**" + rest).None?
  {
    var b := "**РЕШЕНИЕ ВИРТУАЛЬНОГО ДИРЕКТОРА:**" + rest;
    assert b[2] == 'Р' && b[10] == 'В';
    MismatchNotMarker(b, Agenda, 2);
    MismatchNotMarker(b, Decision, 10);
    MismatchNotMarker(b, ShortSummary, 2);
    MismatchNotMarker(b, Justification, 2);
    forall k: Key ensures !StartsWith(b, Marker(k)) {
      match k
      case Agenda =>
      case Decision =>
      case ShortSummary =>
      case Justification =>
    }
    NoMarkerNoHeading(b);
  }

  lemma BriefHeadingNotRecognised(rest: string)
    ensures MatchHeading("**КРАТКОЕ ОБОСНОВАНИЕ:**" + rest).None?
  {
    var c := "**КРАТКОЕ ОБОСНОВАНИЕ:**" + rest;
    assert c[2] == 'К' && c[10] == 'О';
    MismatchNotMarker(c, Agenda, 2);
    MismatchNotMarker(c, Decision, 2);
    MismatchNotMarker(c, ShortSummary, 10);
    MismatchNotMarker(c, Justification, 2);
    forall k: Key ensures !StartsWith(c, Marker(k)) {
      match k
      case Agenda =>
      case Decision =>
      case ShortSummary =>
      case Justification =>
    }
    NoMarkerNoHeading(c);
  }

  lemma GroundsHeadingNotRecognised(rest: string)
    ensures MatchHeading("**ОБОСНОВАНИЕ ПО ВОПРОСУ:**" + rest).None?
  {
    var d := "**ОБОСНОВАНИЕ ПО ВОПРОСУ:**" + rest;
    assert d[2] == 'О' && d[13] == ' ';
    MismatchNotMarker(d, Agenda, 2);
    MismatchNotMarker(d, Decision, 2);
    MismatchNotMarker(d, ShortSummary, 2);
    MismatchNotMarker(d, Justification, 13);
    forall k: Key ensures !StartsWith(d, Marker(k)) {
      match k
      case Agenda =>
      case Decision =>
      case ShortSummary =>
      case Justification =>
    }
    NoMarkerNoHeading(d);
  }

  // ---------------------------------------------------------------------
  // Sections, verdict and blocks

  /** `getSection`: the section's lines joined with newlines and trimmed;
      empty for a section never opened. */
  function GetSection(sections: map<Key, seq<string>>, k: Key): (r: string)
    ensures k !in sections ==> r == ""
    // The joined lines with exactly their leading and trailing whitespace cut.
    ensures var joined := JoinWith(Section(sections, k), "\n");
      TrimmedAt(ECMAScript, joined, r, LeadingSpaces(ECMAScript, joined))
    // Empty exactly when every line of the section is blank.
    ensures r == "" <==> forall l :: l in Section(sections, k) ==> Blank(ECMAScript, l)
  {
    var joined := JoinWith(Section(sections, k), "\n");
    TrimSpec(ECMAScript, joined);
    JoinBlank(ECMAScript, Section(sections, k), "\n");
    Trim(ECMAScript, joined)
  }

  /** `s.split(/\s+/)[0]`: the text before the first whitespace character. */
  function FirstToken(s: string): (t: string)
    ensures StartsWith(s, t)
    ensures forall i :: 0 <= i < |t| ==> !IsSpace(ECMAScript, t[i])
    ensures |t| < |s| ==> IsSpace(ECMAScript, s[|t|])
  {
    if s == [] || IsSpace(ECMAScript, s[0]) then [] else [s[0]] + FirstToken(s[1..])
  }

  /** The decision shown, and whether it gets the positive styling. */
  datatype Verdict = Verdict(shown: string, positive: bool)

  function DecisionVerdict(decisionRaw: string): Verdict {
    var token := UpperStr(FirstToken(decisionRaw));
    var shownText := if token != "" then token else UpperStr(decisionRaw);
    Verdict(shownText, Contains(shownText, "ЗА"))
  }

  /** Upper-casing never turns a visible character into whitespace. */
  lemma UpperNotSpace(c: char)
    requires !IsSpace(ECMAScript, c)
    ensures !IsSpace(ECMAScript, Upper(c))
  {
  }

  /** On a non-empty trimmed decision section the verdict is the upper-cased
      first word: never empty, free of whitespace, and positive exactly when it
      contains "ЗА"; there is no third outcome. */
  lemma {:induction false} VerdictOfSection(decisionRaw: string)
    requires decisionRaw != "" && !IsSpace(ECMAScript, decisionRaw[0])
    ensures var v := DecisionVerdict(decisionRaw);
      && v.shown == UpperStr(FirstToken(decisionRaw))
      && 1 <= |v.shown| <= |decisionRaw|
      && (forall i :: 0 <= i < |v.shown| ==> !IsSpace(ECMAScript, v.shown[i]))
      && (v.positive <==> Contains(v.shown, "ЗА"))
  {
    var t := FirstToken(decisionRaw);
    assert |t| != 0;
    var upper := UpperStr(t);
    forall i | 0 <= i < |upper| ensures !IsSpace(ECMAScript, upper[i]) {
      UpperNotSpace(t[i]);
    }
  }

  /** A lower-case "за" is shown upper-cased and counts as positive. */
  lemma LowerCaseForIsPositive()
    ensures DecisionVerdict("за") == Verdict("ЗА", true)
  {
    assert FirstToken("за") == "за";
    assert UpperStr("за") == "ЗА";
    assert OccursAt("ЗА", "ЗА", 0);
  }

  /** Only the first word is shown. */
  lemma OnlyFirstWordShown()
    ensures DecisionVerdict("ЗА\nпо всем пунктам").shown == "ЗА"
  {
    assert FirstToken("ЗА\nпо всем пунктам") == "ЗА";
    assert UpperStr("ЗА") == "ЗА";
  }

  /** A text without the letter "З" never counts as positive. */
  lemma {:induction false} NoZeNotPositive(decisionRaw: string)
    requires forall i :: 0 <= i < |decisionRaw| ==> decisionRaw[i] != 'З' && decisionRaw[i] != 'з'
    ensures !DecisionVerdict(decisionRaw).positive
  {
    var v := DecisionVerdict(decisionRaw);
    var t := FirstToken(decisionRaw);
    assert forall i :: 0 <= i < |v.shown| ==> v.shown[i] != 'З' by {
      forall i | 0 <= i < |v.shown| ensures v.shown[i] != 'З' {
        if UpperStr(t) != "" {
          assert v.shown[i] == Upper(t[i]) && t[i] == decisionRaw[i];
        }
      }
    }
    forall i: nat | i <= |v.shown| ensures !OccursAt(v.shown, "ЗА", i) {
      if i + 2 <= |v.shown| {
        assert v.shown[i..i + 2][0] == v.shown[i];
      }
    }
  }

  /** "ПРОТИВ." is negative. */
  lemma AgainstIsNegative()
    ensures !DecisionVerdict("ПРОТИВ.").positive
  {
    NoZeNotPositive("ПРОТИВ.");
  }

  /** A text without whitespace is its own first word. */
  lemma {:induction false} WordIsOwnToken(s: string)
    requires forall i :: 0 <= i < |s| ==> !IsSpace(ECMAScript, s[i])
    ensures FirstToken(s) == s
    decreases |s|
  {
    if s != [] {
      WordIsOwnToken(s[1..]);
      assert s == [s[0]] + s[1..];
    }
  }

  /** The substring test also accepts a longer word that merely contains "ЗА". */
  lemma BackwardsIsPositive()
    ensures DecisionVerdict("назад").positive
  {
    var s := "назад";
    assert forall i :: 0 <= i < |s| ==> '\U{430}' <= s[i] <= '\U{44F}';
    WordIsOwnToken(s);
    var u := UpperStr(s);
    assert u[2] == Upper(s[2]) && u[3] == Upper(s[3]);
    assert u[2..4] == "ЗА";
    assert OccursAt(u, "ЗА", 2);
  }

  /** A panel of the structured view. */
  datatype Block =
    | AgendaBlock(text: string)
    | DecisionBlock(verdict: Verdict)
    | JustificationBlock(text: string)
    | ShortSummaryBlock(text: string)

  function BlockKey(b: Block): Key {
    match b
    case AgendaBlock(_) => Agenda
    case DecisionBlock(_) => Decision
    case JustificationBlock(_) => Justification
    case ShortSummaryBlock(_) => ShortSummary
  }

  /** Position of a section's panel in the emitted order. */
  function Rank(k: Key): nat {
    match k
    case Agenda => 0
    case Decision => 1
    case Justification => 2
    case ShortSummary => 3
  }

  /** What the panel shows: the status card, structured blocks, or the raw text. */
  datatype View = NoData | Structured(blocks: seq<Block>) | RawText(text: string)

  /** The sections of a summary text, as the page's parser sees them. */
  function SummarySections(summary: string): map<Key, seq<string>> {
    ParseLines(MatchHeading, SplitOn(summary, "\n")).sections
  }

  /** The trimmed text of each of the four sections (`getSection`, called once
      per panel). */
  datatype SectionTexts = SectionTexts(agenda: string, decision: string, justification: string, shortSummary: string) {
    function Of(k: Key): string {
      match k
      case Agenda => agenda
      case Decision => decision
      case Justification => justification
      case ShortSummary => shortSummary
    }
  }

  function TextsOf(sections: map<Key, seq<string>>): SectionTexts {
    SectionTexts(GetSection(sections, Agenda), GetSection(sections, Decision),
      GetSection(sections, Justification), GetSection(sections, ShortSummary))
  }

  /** Some block of `blocks` is the panel of section `k`. */
  predicate ShowsSection(blocks: seq<Block>, k: Key) {
    exists i :: 0 <= i < |blocks| && BlockKey(blocks[i]) == k
  }

  /** A block carries the text (or the verdict) of its own section. */
  predicate BlockFaithful(b: Block, t: SectionTexts) {
    match b
    case AgendaBlock(s) => s == t.agenda
    case DecisionBlock(v) => v == DecisionVerdict(t.decision)
    case JustificationBlock(s) => s == t.justification
    case ShortSummaryBlock(s) => s == t.shortSummary
  }

  /** The blocks of the structured view: one per non-empty section, each
      faithful to it, in the fixed panel order. */
  predicate WellFormedBlocks(blocks: seq<Block>, t: SectionTexts) {
    && (forall i, j :: 0 <= i < j < |blocks| ==> Rank(BlockKey(blocks[i])) < Rank(BlockKey(blocks[j])))
    && (forall i :: 0 <= i < |blocks| ==> BlockFaithful(blocks[i], t))
    && (forall k: Key :: ShowsSection(blocks, k) <==> t.Of(k) != "")
  }

  /** `blocks` is well formed for the panels of rank below `n`. */
  predicate WellFormedUpTo(blocks: seq<Block>, t: SectionTexts, n: nat) {
    && (forall i, j :: 0 <= i < j < |blocks| ==> Rank(BlockKey(blocks[i])) < Rank(BlockKey(blocks[j])))
    && (forall i :: 0 <= i < |blocks| ==> Rank(BlockKey(blocks[i])) < n && BlockFaithful(blocks[i], t))
    && (forall k: Key :: Rank(k) < n ==> (ShowsSection(blocks, k) <==> t.Of(k) != ""))
  }

  lemma RankInjective(k: Key, k': Key)
    requires Rank(k) == Rank(k')
    ensures k == k'
  {
  }

  lemma PushPanel(blocks: seq<Block>, t: SectionTexts, b: Block)
    requires WellFormedUpTo(blocks, t, Rank(BlockKey(b)))
    requires BlockFaithful(b, t) && t.Of(BlockKey(b)) != ""
    ensures WellFormedUpTo(blocks + [b], t, Rank(BlockKey(b)) + 1)
  {
    var blocks' := blocks + [b];
    forall k: Key | Rank(k) < Rank(BlockKey(b)) + 1
      ensures ShowsSection(blocks', k) <==> t.Of(k) != ""
    {
      if Rank(k) == Rank(BlockKey(b)) {
        RankInjective(k, BlockKey(b));
        assert BlockKey(blocks'[|blocks|]) == k;
      } else {
        if ShowsSection(blocks, k) {
          var i :| 0 <= i < |blocks| && BlockKey(blocks[i]) == k;
          assert BlockKey(blocks'[i]) == k;
        }
        if ShowsSection(blocks', k) {
          var i :| 0 <= i < |blocks'| && BlockKey(blocks'[i]) == k;
          assert i < |blocks| && BlockKey(blocks[i]) == k;
        }
      }
    }
  }

  lemma SkipPanel(blocks: seq<Block>, t: SectionTexts, k0: Key)
    requires WellFormedUpTo(blocks, t, Rank(k0))
    requires t.Of(k0) == ""
    ensures WellFormedUpTo(blocks, t, Rank(k0) + 1)
  {
    forall k: Key | Rank(k) == Rank(k0) ensures !ShowsSection(blocks, k) {
      RankInjective(k, k0);
    }
  }

  lemma WellFormedComplete(blocks: seq<Block>, t: SectionTexts)
    requires WellFormedUpTo(blocks, t, 4)
    ensures WellFormedBlocks(blocks, t)
    ensures blocks == [] <==> forall k: Key :: t.Of(k) == ""
  {
    forall k: Key ensures ShowsSection(blocks, k) <==> t.Of(k) != "" {
      assert Rank(k) < 4;
    }
    if blocks != [] {
      assert ShowsSection(blocks, BlockKey(blocks[0]));
    }
  }

  /** The panel the component builds for section `k`. */
  function Panel(k: Key, t: SectionTexts): (b: Block)
    ensures BlockKey(b) == k && BlockFaithful(b, t)
  {
    match k
    case Agenda => AgendaBlock(t.agenda)
    case Decision => DecisionBlock(DecisionVerdict(t.decision))
    case Justification => JustificationBlock(t.justification)
    case ShortSummary => ShortSummaryBlock(t.shortSummary)
  }

  /** One `if (section) blocks.push(<panel>)` step. */
  method PushIfPresent(blocks: seq<Block>, t: SectionTexts, k: Key) returns (blocks': seq<Block>)
    requires WellFormedUpTo(blocks, t, Rank(k))
    ensures WellFormedUpTo(blocks', t, Rank(k) + 1)
    ensures blocks' == if t.Of(k) != "" then blocks + [Panel(k, t)] else blocks
  {
    if t.Of(k) != "" {
      PushPanel(blocks, t, Panel(k, t));
      blocks' := blocks + [Panel(k, t)];
    } else {
      SkipPanel(blocks, t, k);
      blocks' := blocks;
    }
  }

  /** The four `if (...) blocks.push(...)` steps of the component. */
  method CollectBlocks(t: SectionTexts) returns (blocks: seq<Block>)
    ensures WellFormedBlocks(blocks, t)
    ensures blocks == [] <==> forall k: Key :: t.Of(k) == ""
  {
    blocks := [];
    blocks := PushIfPresent(blocks, t, Agenda);
    blocks := PushIfPresent(blocks, t, Decision);
    blocks := PushIfPresent(blocks, t, Justification);
    blocks := PushIfPresent(blocks, t, ShortSummary);
    WellFormedComplete(blocks, t);
  }

  /** `SummaryView`: renders the synthesis text. */
  method Render(summary: string) returns (v: View)
    ensures v == NoData <==> Blank(ECMAScript, summary)
    ensures v.RawText? ==> v.text == summary
    ensures !Blank(ECMAScript, summary) ==>
      (v.RawText? <==> forall k: Key :: TextsOf(SummarySections(summary)).Of(k) == "")
    ensures v.Structured? ==> WellFormedBlocks(v.blocks, TextsOf(SummarySections(summary)))
  {
    var summaryText := summary;
    if Trim(ECMAScript, summaryText) == "" {
      return NoData;
    }
    var lines := SplitOn(summaryText, "\n");
    var current, sections := ParseSections(MatchHeading, lines);
    assert sections == SummarySections(summary);
    var blocks := CollectBlocks(TextsOf(sections));
    if blocks == [] {
      return RawText(summaryText);
    }
    return Structured(blocks);
  }

  /** A summary with no recognised heading line (for instance one written in
      the server's own response format) is shown as raw text. */
  lemma {:induction false} UnrecognisedFormatFallsBack(summary: string)
    requires forall j :: 0 <= j < |SplitOn(summary, "\n")| ==> MatchHeading(SplitOn(summary, "\n")[j]).None?
    ensures forall k: Key :: GetSection(SummarySections(summary), k) == ""
  {
    NoHeadingNoSections(MatchHeading, SplitOn(summary, "\n"));
  }
}
