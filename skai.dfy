/** The Python board-agenda pipeline's own logic, around its calls to the
    language models: assembling the agenda from chat messages, cleaning and
    checking the model's numbered list with bounded retries, splitting an
    agenda into items, reading the decision out of the director's answer,
    counting decisions and laying out the text report.  Model calls are the
    oracle `reply`: `reply(i)` is what the i-th attempt returns. */
module Skai {
  import opened Wrappers
  import opened Text

  // ---------------------------------------------------------------------
  // Agenda text from the chat messages

  const ContextOpen: string := "<context>"
  const ContextClose: string := "</context>"

  /** A message that carries both tags. */
  predicate HasContext(content: string) {
    Contains(content, ContextOpen) && Contains(content, ContextClose)
  }

  /** The first piece of `s.split(sep)` is a prefix of `s` that ends at
      the end of `s` or where `sep` starts. */
  lemma FirstPiece(s: string, sep: string)
    requires |sep| > 0
    ensures var p := SplitOn(s, sep)[0];
      && |p| <= |s| && s[..|p|] == p
      && (|p| == |s| || OccursAt(s, sep, |p|))
      && !Contains(p, sep)
  {
    var parts := SplitOn(s, sep);
    SplitOnSpec(s, sep);
    var p := parts[0];
    if |parts| >= 2 {
      assert parts == [p] + parts[1..];
      assert s == p + sep + JoinWith(parts[1..], sep);
      assert s[|p|..|p| + |sep|] == sep;
    }
  }

  /** `content.split(open)[1].split(close)[0]`: the text that starts right
      after the first `open` and stops at the next `open` or `close`, or at
      the end. */
  function Enclosed(content: string, open: string, close: string): string
    requires |open| > 0 && |close| > 0 && Contains(content, open)
  {
    SplitOn(SplitOn(content, open)[1], close)[0]
  }

  /** Position `end` is the end of the text or the start of either tag. */
  predicate StopsAt(content: string, open: string, close: string, end: nat) {
    end == |content| || OccursAt(content, close, end) || OccursAt(content, open, end)
  }

  /** `r` sits right after the `open` at `k`, ends where the text ends or
      either tag starts, and contains neither tag. */
  predicate EnclosedAt(content: string, open: string, close: string, k: nat, r: string) {
    && k + |open| + |r| <= |content|
    && content[k + |open|..k + |open| + |r|] == r
    && StopsAt(content, open, close, k + |open| + |r|)
    && !Contains(r, open)
    && !Contains(r, close)
  }

  /** `Enclosed` is the text right after the first `open`, up to the next
      `open` or `close` or the end, and it contains neither tag. */
  lemma EnclosedSpec(content: string, open: string, close: string, k: nat)
    requires |open| > 0 && |close| > 0
    requires FindFrom(content, open, 0) == Some(k)
    ensures EnclosedAt(content, open, close, k, Enclosed(content, open, close))
  {
    SecondPiece(content, open, k);
    var tail := content[k + |open|..];
    var piece := SplitOn(content, open)[1];
    assert piece == SplitOn(tail, open)[0];
    var r := SplitOn(piece, close)[0];
    FirstPiece(tail, open);
    FirstPiece(piece, close);
    EnclosedBounds(content, open, close, k, tail, piece, r);
  }

  /** The second piece of `content.split(open)` is the first piece of what
      follows the leftmost `open`. */
  lemma SecondPiece(content: string, open: string, k: nat)
    requires |open| > 0 && FindFrom(content, open, 0) == Some(k)
    ensures k + |open| <= |content|
    ensures |SplitOn(content, open)| >= 2
    ensures SplitOn(content, open)[1] == SplitOn(content[k + |open|..], open)[0]
  {
    FoundFits(content, open, k);
    SplitOnStep(content, open, k);
  }

  lemma EnclosedBounds(content: string, open: string, close: string, k: nat, tail: string, piece: string, r: string)
    requires |open| > 0 && |close| > 0
    requires k + |open| <= |content| && tail == content[k + |open|..]
    requires |piece| <= |tail| && tail[..|piece|] == piece
    requires |piece| == |tail| || OccursAt(tail, open, |piece|)
    requires !Contains(piece, open)
    requires |r| <= |piece| && piece[..|r|] == r
    requires |r| == |piece| || OccursAt(piece, close, |r|)
    requires !Contains(r, close)
    ensures EnclosedAt(content, open, close, k, r)
  {
    var start := k + |open|;
    assert tail[..|r|] == r by {
      assert tail[..|piece|] == piece;
      assert piece[..|r|] == r;
    }
    assert content[start..start + |r|] == tail[..|r|];
    if |r| < |piece| {
      ShiftOccurrence(content, start, piece, |r|, close);
    } else if |piece| < |tail| {
      ShiftOccurrence(content, start, tail, |r|, open);
    }
    NotContainedInPrefix(piece, r, open);
  }

  /** An occurrence inside a prefix of a suffix is an occurrence in the whole. */
  lemma ShiftOccurrence(content: string, start: nat, part: string, i: nat, sub: string)
    requires start + |part| <= |content| && content[start..start + |part|] == part
    requires OccursAt(part, sub, i)
    ensures OccursAt(content, sub, start + i)
  {
    forall j | 0 <= j < |sub|
      ensures content[start + i + j] == sub[j]
    {
      assert part[i + j] == content[start..start + |part|][i + j];
    }
  }

  /** A prefix of a text that does not contain `sub` does not contain it either. */
  lemma NotContainedInPrefix(s: string, prefix: string, sub: string)
    requires |prefix| <= |s| && s[..|prefix|] == prefix
    requires !Contains(s, sub)
    ensures !Contains(prefix, sub)
  {
    if Contains(prefix, sub) {
      var i: nat :| i <= |prefix| && OccursAt(prefix, sub, i);
      assert s[i..i + |sub|] == prefix[i..i + |sub|];
      assert OccursAt(s, sub, i);
    }
  }

  /** What one message adds to the agenda text. */
  function Contribution(content: string): string {
    if HasContext(content) then Enclosed(content, ContextOpen, ContextClose) + "\n" else content
  }

  /** The agenda text of a list of messages, in order. */
  function Assemble(contents: seq<string>): string {
    if contents == [] then ""
    else Assemble(contents[..|contents| - 1]) + Contribution(contents[|contents| - 1])
  }

  /** The number of messages that carry a context block. */
  function ContextCount(contents: seq<string>): nat {
    if contents == [] then 0
    else ContextCount(contents[..|contents| - 1]) + (if HasContext(contents[|contents| - 1]) then 1 else 0)
  }

  /** The first loop of `pipe`: the agenda text accumulated message by
      message, and one "Context received" status event per context block. */
  method AssembleAgenda(contents: seq<string>) returns (agenda: string, events: seq<string>)
    ensures agenda == Assemble(contents)
    ensures |events| == ContextCount(contents)
    ensures forall e :: e in events ==> e == "Context received"
  {
    agenda := "";
    events := [];
    for i := 0 to |contents|
      invariant agenda == Assemble(contents[..i])
      invariant |events| == ContextCount(contents[..i])
      invariant forall e :: e in events ==> e == "Context received"
    {
      assert contents[..i + 1][..i] == contents[..i];
      var content := contents[i];
      if Contains(content, ContextOpen) && Contains(content, ContextClose) {
        agenda := agenda + Enclosed(content, ContextOpen, ContextClose) + "\n";
        events := events + ["Context received"];
      } else {
        agenda := agenda + content;
      }
    }
    assert contents[..|contents|] == contents;
  }

  /** The agenda text distributes over the message list. */
  lemma {:induction false} AssembleAppend(xs: seq<string>, ys: seq<string>)
    ensures Assemble(xs + ys) == Assemble(xs) + Assemble(ys)
    decreases |ys|
  {
    if ys == [] {
      assert xs + ys == xs;
    } else {
      var init := ys[..|ys| - 1];
      var last := Contribution(ys[|ys| - 1]);
      assert (xs + ys)[..|xs + ys| - 1] == xs + init;
      assert (xs + ys)[|xs + ys| - 1] == ys[|ys| - 1];
      assert Assemble(xs + ys) == Assemble(xs + init) + last;
      assert Assemble(ys) == Assemble(init) + last;
      AssembleAppend(xs, init);
    }
  }

  /** A message without a context block is copied whole, with nothing
      between it and the next one; a context block contributes the text
      enclosed after its first `<context>`, followed by a line break. */
  lemma ContributionShape(content: string)
    ensures !HasContext(content) ==> Contribution(content) == content
    ensures HasContext(content) ==>
      var c := Contribution(content);
      var k := FindFrom(content, ContextOpen, 0);
      && |c| >= 1 && c[|c| - 1] == '\n'
      && k.Some? && EnclosedAt(content, ContextOpen, ContextClose, k.value, c[..|c| - 1])
  {
    if HasContext(content) {
      FindFromContains(content, ContextOpen);
      var k := FindFrom(content, ContextOpen, 0).value;
      EnclosedSpec(content, ContextOpen, ContextClose, k);
      var e := Enclosed(content, ContextOpen, ContextClose);
      assert (e + "\n")[..|e|] == e;
    }
  }

  // ---------------------------------------------------------------------
  // Analysis results as text

  /** An agent's result dictionary: `status`, `response` and `error`, each
      `None` when the key is absent. */
  datatype AgentResult = AgentResult(status: Option<string>, response: Option<string>, error: Option<string>)

  const ErrorPrefix: string := "ОШИБКА: "
  const UnknownError: string := "Неизвестная ошибка"
  const NoData: string := "Нет данных"
  const NotPerformed: string := "Анализ не выполнен"

  /** `_format_analysis_result`. */
  function FormatAnalysisResult(result: AgentResult): (r: string)
    ensures result.status == Some("error") ==> r == ErrorPrefix + result.error.GetOr(UnknownError)
    ensures result.status == Some("success") ==> r == result.response.GetOr(NoData)
    ensures result.status != Some("error") && result.status != Some("success") ==> r == NotPerformed
  {
    if result.status == Some("error") then ErrorPrefix + result.error.GetOr(UnknownError)
    else if result.status == Some("success") then result.response.GetOr(NoData)
    else NotPerformed
  }

  // ---------------------------------------------------------------------
  // Splitting the agenda into items

  datatype AgendaItem = AgendaItem(number: string, title: string, fullText: string, description: string)

  /** One match of the numbered-item pattern: the digits and the text after
      the dot. */
  datatype NumberedMatch = NumberedMatch(number: string, rawText: string)

  /** A text without `"\n"` holds no line break. */
  lemma NoLineBreak(s: string)
    requires !Contains(s, "\n")
    ensures '\n' !in s
  {
    if '\n' in s {
      var j :| 0 <= j < |s| && s[j] == '\n';
      assert OccursAt(s, "\n", j);
    }
  }

  /** `text.split("\n")[0]`: the text up to its first line break. */
  function FirstLine(text: string): (r: string)
    ensures |r| <= |text| && text[..|r|] == r
    ensures '\n' !in r
    ensures |r| < |text| ==> text[|r|] == '\n'
  {
    FirstPiece(text, "\n");
    SplitOnSpec(text, "\n");
    NoLineBreak(SplitOn(text, "\n")[0]);
    SplitOn(text, "\n")[0]
  }

  /** The item of a numbered match: its stripped text, titled by its first line. */
  function NumberedItem(m: NumberedMatch): (item: AgendaItem)
    ensures item.number == m.number
    ensures item.fullText == Trim(Python, m.rawText) && item.description == item.fullText
    ensures StartsWith(item.fullText, item.title) && '\n' !in item.title
    ensures |item.title| < |item.fullText| ==> item.fullText[|item.title|] == '\n'
  {
    var text := Trim(Python, m.rawText);
    AgendaItem(m.number, FirstLine(text), text, text)
  }

  const TitleLimit: nat := 100
  const Ellipsis: string := "..."

  /** A paragraph's title: the paragraph, or its first 100 characters and
      an ellipsis when it is longer. */
  function ParagraphTitle(p: string): (title: string)
    ensures |title| <= TitleLimit + |Ellipsis|
    ensures |p| <= TitleLimit ==> title == p
    ensures |p| > TitleLimit ==>
      |title| == TitleLimit + |Ellipsis| && StartsWith(p, title[..TitleLimit]) && EndsWith(title, Ellipsis)
  {
    if |p| > TitleLimit then p[..TitleLimit] + Ellipsis else p
  }

  /** `[p.strip() for p in pieces if p.strip()]`. */
  function Stripped(pieces: seq<string>): (r: seq<string>)
    ensures |r| <= |pieces|
    ensures forall i :: 0 <= i < |r| ==> r[i] != [] && !IsSpace(Python, r[i][0]) && !IsSpace(Python, r[i][|r[i]| - 1])
  {
    if pieces == [] then []
    else (if Blank(Python, pieces[0]) then [] else [Trim(Python, pieces[0])]) + Stripped(pieces[1..])
  }

  /** Exactly the non-blank pieces survive, stripped. */
  lemma {:induction false} StrippedMembers(pieces: seq<string>, p: string)
    ensures p in Stripped(pieces) <==> exists i :: 0 <= i < |pieces| && !Blank(Python, pieces[i]) && p == Trim(Python, pieces[i])
  {
    if pieces != [] {
      StrippedMembers(pieces[1..], p);
      if p in Stripped(pieces[1..]) {
        var i :| 0 <= i < |pieces[1..]| && !Blank(Python, pieces[1..][i]) && p == Trim(Python, pieces[1..][i]);
        assert pieces[i + 1] == pieces[1..][i];
      }
      forall i | 1 <= i < |pieces| && !Blank(Python, pieces[i]) && p == Trim(Python, pieces[i])
        ensures p in Stripped(pieces[1..])
      {
        assert pieces[1..][i - 1] == pieces[i];
      }
    }
  }

  /** Stripping keeps the pieces' order: it distributes over concatenation. */
  lemma {:induction false} StrippedAppend(xs: seq<string>, ys: seq<string>)
    ensures Stripped(xs + ys) == Stripped(xs) + Stripped(ys)
  {
    if xs != [] {
      assert (xs + ys)[1..] == xs[1..] + ys;
      StrippedAppend(xs[1..], ys);
    } else {
      assert xs + ys == ys;
    }
  }

  /** The blank-line-separated paragraphs of a text, stripped, blank ones dropped. */
  function Paragraphs(text: string): seq<string> {
    Stripped(SplitOn(text, "\n\n"))
  }

  /** The `idx`-th paragraph's item (numbered from 1). */
  function ParagraphItem(idx: nat, p: string): (item: AgendaItem)
    ensures (forall i :: 0 <= i < |item.number| ==> IsDigit(item.number[i])) && DigitsValue(item.number) == idx
    ensures item.fullText == p && item.description == p && item.title == ParagraphTitle(p)
  {
    AgendaItem(NatToString(idx), ParagraphTitle(p), p, p)
  }

  /** `_parse_agenda`, given the matches of the numbered-item pattern: one
      item per match; with no match, one item per paragraph. */
  method ParseAgenda(matches: seq<NumberedMatch>, agendaText: string) returns (items: seq<AgendaItem>)
    ensures |matches| > 0 ==>
      |items| == |matches| && forall i :: 0 <= i < |items| ==> items[i] == NumberedItem(matches[i])
    ensures |matches| == 0 ==>
      |items| == |Paragraphs(agendaText)|
      && forall i :: 0 <= i < |items| ==> items[i] == ParagraphItem(i + 1, Paragraphs(agendaText)[i])
  {
    items := [];
    for i := 0 to |matches|
      invariant |items| == i
      invariant forall k :: 0 <= k < i ==> items[k] == NumberedItem(matches[k])
    {
      items := items + [NumberedItem(matches[i])];
    }
    if items == [] {
      var paragraphs := Stripped(SplitOn(agendaText, "\n\n"));
      for idx := 0 to |paragraphs|
        invariant |items| == idx
        invariant forall k :: 0 <= k < idx ==> items[k] == ParagraphItem(k + 1, paragraphs[k])
      {
        items := items + [ParagraphItem(idx + 1, paragraphs[idx])];
      }
    }
  }

  /** With no numbered match, every item has a non-blank text, and the
      items are numbered 1, 2, 3, ... */
  lemma ParagraphItemsWellFormed(agendaText: string, items: seq<AgendaItem>)
    requires |items| == |Paragraphs(agendaText)|
    requires forall i :: 0 <= i < |items| ==> items[i] == ParagraphItem(i + 1, Paragraphs(agendaText)[i])
    ensures forall i :: 0 <= i < |items| ==> !Blank(Python, items[i].fullText)
    ensures forall i :: 0 <= i < |items| ==> items[i].number == NatToString(i + 1)
  {
    var ps := Paragraphs(agendaText);
    forall i | 0 <= i < |items| ensures !Blank(Python, items[i].fullText) {
      assert items[i].fullText == ps[i] && ps[i] != [];
      assert !IsSpace(Python, ps[i][0]);
    }
  }

  // ---------------------------------------------------------------------
  // Preprocessing the agenda with bounded retries

  /** `text.replace("\r\n", "\n").replace("\r", "\n")`. */
  function NormalizeNewlines(text: string): (r: string)
    ensures '\r' !in r
  {
    ReplaceRemovesChar(Replace(text, "\r\n", "\n"), '\r', "\n");
    Replace(Replace(text, "\r\n", "\n"), "\r", "\n")
  }

  /** Newline normalisation read one character at a time: a CR LF pair and
      a lone CR each become one LF; every other character is kept. */
  function LineEndsToLf(s: string): string {
    if s == [] then []
    else if s[0] == '\r' then
      "\n" + LineEndsToLf(if |s| >= 2 && s[1] == '\n' then s[2..] else s[1..])
    else [s[0]] + LineEndsToLf(s[1..])
  }

  /** The two replacements together do what `LineEndsToLf` does. */
  lemma NormalizeNewlinesMeaning(text: string)
    ensures NormalizeNewlines(text) == LineEndsToLf(text)
  {
    ReplaceIsScan(text, "\r\n", "\n");
    ReplaceIsScan(ReplaceScan(text, "\r\n", "\n"), "\r", "\n");
    TwoScans(text);
  }

  lemma {:induction false} TwoScans(s: string)
    ensures ReplaceScan(ReplaceScan(s, "\r\n", "\n"), "\r", "\n") == LineEndsToLf(s)
    decreases |s|
  {
    if s == [] {
    } else if |s| >= 2 && s[..2] == "\r\n" {
      var t := ReplaceScan(s[2..], "\r\n", "\n");
      assert ReplaceScan(s, "\r\n", "\n") == "\n" + t;
      assert ("\n" + t)[1..] == t;
      TwoScans(s[2..]);
      assert s[1] == '\n' by { assert s[1] == s[..2][1]; }
    } else if s[0] == '\r' {
      var t := ReplaceScan(s[1..], "\r\n", "\n");
      assert ReplaceScan(s, "\r\n", "\n") == ['\r'] + t;
      assert (['\r'] + t)[..1] == "\r" && (['\r'] + t)[1..] == t;
      TwoScans(s[1..]);
    } else {
      var t := ReplaceScan(s[1..], "\r\n", "\n");
      assert ReplaceScan(s, "\r\n", "\n") == [s[0]] + t;
      assert ([s[0]] + t)[..1] != "\r" && ([s[0]] + t)[1..] == t;
      TwoScans(s[1..]);
    }
  }

  /** A text without carriage returns passes through unchanged. */
  lemma NormalizeKeepsPlainText(text: string)
    requires '\r' !in text
    ensures NormalizeNewlines(text) == text
  {
    AbsentFirstChar(text, "\r\n");
    ReplaceAbsent(text, "\r\n", "\n");
    AbsentFirstChar(text, "\r");
    ReplaceAbsent(text, "\r", "\n");
  }

  /** What one model call yields: its `output_text` (a missing text read as
      empty), or the text of the exception it raised. */
  datatype Attempt = Produced(text: string) | Raised(message: string)

  const Fence: string := "```"

  /** The text without its leading run of `c`. */
  function DropLeading(s: string, c: char): string
  {
    if s != [] && s[0] == c then DropLeading(s[1..], c) else s
  }

  /** The text without its trailing run of `c`. */
  function DropTrailing(s: string, c: char): string
  {
    if s != [] && s[|s| - 1] == c then DropTrailing(s[..|s| - 1], c) else s
  }

  /** `DropLeading` removes a run of `c` from the front, and all of it. */
  lemma {:induction false} DropLeadingSpec(s: string, c: char)
    ensures var r := DropLeading(s, c);
      && |r| <= |s| && r == s[|s| - |r|..]
      && (forall i :: 0 <= i < |s| - |r| ==> s[i] == c)
      && (r != [] ==> r[0] != c)
  {
    if s != [] && s[0] == c {
      DropLeadingSpec(s[1..], c);
      var r := DropLeading(s, c);
      forall i | 0 <= i < |s| - |r| ensures s[i] == c {
        if i > 0 { assert s[i] == s[1..][i - 1]; }
      }
    }
  }

  /** `DropTrailing` removes a run of `c` from the back, and all of it. */
  lemma {:induction false} DropTrailingSpec(s: string, c: char)
    ensures var r := DropTrailing(s, c);
      && |r| <= |s| && r == s[..|r|]
      && (forall i :: |r| <= i < |s| ==> s[i] == c)
      && (r != [] ==> r[|r| - 1] != c)
  {
    if s != [] && s[|s| - 1] == c {
      DropTrailingSpec(s[..|s| - 1], c);
      var r := DropTrailing(s, c);
      forall i | |r| <= i < |s| ensures s[i] == c {
        if i < |s| - 1 { assert s[i] == s[..|s| - 1][i]; }
      }
    }
  }

  /** Python `s.strip(c)`. */
  function StripChar(s: string, c: char): string
  {
    DropTrailing(DropLeading(s, c), c)
  }

  /** `m` is `s` with a leading and a trailing run of `c` removed, and
      neither end of `m` is `c`; these facts fix `m` for a given `s`. */
  ghost predicate StrippedOf(s: string, c: char, m: string) {
    && (m != [] ==> m[0] != c && m[|m| - 1] != c)
    && exists a: nat :: OccursAt(s, m, a)
         && (forall i :: 0 <= i < a ==> s[i] == c)
         && (forall i :: a + |m| <= i < |s| ==> s[i] == c)
  }

  /** After `strip(c)` neither end is `c`, and what was removed was all `c`:
      the result is the slice of `s` between two runs of `c`. */
  lemma StripCharSpec(s: string, c: char)
    ensures StrippedOf(s, c, StripChar(s, c))
  {
    var t := DropLeading(s, c);
    var r := DropTrailing(t, c);
    DropLeadingSpec(s, c);
    DropTrailingSpec(t, c);
    var a := |s| - |t|;
    assert OccursAt(s, r, a);
    forall i | a + |r| <= i < |s| ensures s[i] == c {
      assert s[i] == t[i - a];
    }
  }

  /** The output stripped of surrounding whitespace, and of a surrounding
      code fence when it starts and ends with one. */
  function CleanOutput(output: string): (r: string)
    ensures r == [] || (!IsSpace(Python, r[0]) && !IsSpace(Python, r[|r| - 1]))
    // Unfenced: the output with its surrounding whitespace cut.
    ensures var t := Trim(Python, output);
      !(StartsWith(t, Fence) && EndsWith(t, Fence)) ==>
        TrimmedAt(Python, output, r, LeadingSpaces(Python, output))
    // Fenced: what lies between the backtick runs, with its own
    // surrounding whitespace cut.
    ensures var t := Trim(Python, output);
      StartsWith(t, Fence) && EndsWith(t, Fence) ==>
        exists m :: StrippedOf(t, '`', m) && TrimmedAt(Python, m, r, LeadingSpaces(Python, m))
  {
    var t := Trim(Python, output);
    TrimSpec(Python, output);
    if StartsWith(t, Fence) && EndsWith(t, Fence) then
      var m := StripChar(t, '`');
      StripCharSpec(t, '`');
      TrimSpec(Python, m);
      Trim(Python, m)
    else t
  }

  /** A fence-free output is only stripped. */
  lemma CleanUnfenced(output: string)
    requires !StartsWith(Trim(Python, output), Fence)
    ensures CleanOutput(output) == Trim(Python, output)
  {
  }

  /** The length of the run of ASCII digits starting at `i`. */
  function DigitRun(s: string, i: nat): (n: nat)
    requires i <= |s|
    ensures i + n <= |s|
    ensures forall j :: i <= j < i + n ==> IsDigit(s[j])
    ensures i + n < |s| ==> !IsDigit(s[i + n])
    decreases |s| - i
  {
    if i < |s| && IsDigit(s[i]) then 1 + DigitRun(s, i + 1) else 0
  }

  /** Position `i` starts a line (`^` under `re.MULTILINE`). */
  predicate LineStart(s: string, i: nat) {
    i == 0 || (0 < i <= |s| && s[i - 1] == '\n')
  }

  /** The number of a `^(\d+)\.\s+` match at `i`, if one starts there. */
  function NumberedLineAt(s: string, i: nat): Option<nat> {
    if i > |s| then None
    else
      var n := DigitRun(s, i);
      if LineStart(s, i) && n > 0 && i + n + 1 < |s| && s[i + n] == '.' && IsSpace(Python, s[i + n + 1])
      then Some(DigitsValue(s[i..i + n]))
      else None
  }

  /** The leftmost numbered line at or after `from`. */
  function FirstNumberedLine(s: string, from: nat): Option<nat>
    requires from <= |s|
    decreases |s| - from
  {
    if NumberedLineAt(s, from).Some? then Some(from)
    else if from == |s| then None
    else FirstNumberedLine(s, from + 1)
  }

  /** `FirstNumberedLine` finds the leftmost numbered line, and finds none
      only when there is none. */
  lemma {:induction false} FirstNumberedLineSpec(s: string, from: nat)
    requires from <= |s|
    ensures var r := FirstNumberedLine(s, from);
      && (r.Some? ==> from <= r.value <= |s| && NumberedLineAt(s, r.value).Some?)
      && (r.Some? ==> forall j :: from <= j < r.value ==> NumberedLineAt(s, j).None?)
      && (r.None? ==> forall j :: from <= j <= |s| ==> NumberedLineAt(s, j).None?)
    decreases |s| - from
  {
    if NumberedLineAt(s, from).None? && from < |s| {
      FirstNumberedLineSpec(s, from + 1);
    }
  }

  /** Why a preprocessing attempt is rejected: no numbered line, a first
      number other than 1, or an exception with its text. */
  datatype Rejection = NoNumberedItems | NotFromOne | Exception(message: string)

  /** The text of the exception each rejection stands for. */
  function RejectionText(reason: Rejection): string {
    match reason
    case NoNumberedItems => "Результат не содержит нумерованных пунктов 'N.'"
    case NotFromOne => "Нумерация не начинается с 1."
    case Exception(message) => message
  }

  /** The text of the `RuntimeError` raised after three rejections. */
  function PreprocessFailureText(last: Rejection): string {
    "Не удалось препроцессировать повестку через gpt-4o: " + RejectionText(last)
  }

  /** The two checks on a cleaned output: some line must start with a
      number, a dot and whitespace, and the first such number must be 1. */
  function NumberingRejection(out: string): Option<Rejection> {
    match FirstNumberedLine(out, 0)
    case None => Some(NoNumberedItems)
    case Some(p) => if NumberedLineAt(out, p) == Some(1) then None else Some(NotFromOne)
  }

  /** How one preprocessing attempt ends: the cleaned list, or the reason it
      is rejected. */
  function PreprocessVerdict(attempt: Attempt): Result<string, Rejection> {
    match attempt
    case Raised(message) => Failure(Exception(message))
    case Produced(text) =>
      var out := CleanOutput(text);
      match NumberingRejection(out)
      case Some(reason) => Failure(reason)
      case None => Success(out)
  }

  /** An attempt is accepted exactly when it produced an output whose first
      numbered line, after cleaning, is numbered 1; the result is that
      cleaned output. */
  lemma PreprocessVerdictMeaning(attempt: Attempt)
    ensures var r := PreprocessVerdict(attempt);
      && (r.Success? <==>
            && attempt.Produced?
            && FirstNumberedLine(CleanOutput(attempt.text), 0).Some?
            && NumberedLineAt(CleanOutput(attempt.text), FirstNumberedLine(CleanOutput(attempt.text), 0).value) == Some(1))
      && (r.Success? ==> r.value == CleanOutput(attempt.text))
      && (attempt.Raised? ==> r == Failure(Exception(attempt.message)))
      && (attempt.Produced? && FirstNumberedLine(CleanOutput(attempt.text), 0).None? ==> r == Failure(NoNumberedItems))
  {
  }

  /** A cleaned output whose first line is `1.` and a space is accepted. */
  lemma AcceptsListFromOne(output: string, rest: string)
    requires CleanOutput(output) == "1. " + rest
    ensures PreprocessVerdict(Produced(output)) == Success("1. " + rest)
  {
    var out := "1. " + rest;
    assert DigitRun(out, 1) == 0;
    assert DigitRun(out, 0) == 1;
    assert out[0..1] == "1";
    assert DigitsValue("1") == 10 * DigitsValue("") + 1;
    assert NumberedLineAt(out, 0) == Some(1);
    assert FirstNumberedLine(out, 0) == Some(0);
  }

  /** The user message of every preprocessing request. */
  function PreprocessPrompt(rawText: string): string {
    "Исходный текст повестки ниже. Преобразуйте его согласно требованиям.\n\n" + NormalizeNewlines(rawText)
  }

  /** The loop both model-call helpers share: attempt `i` ends with
      `verdicts(i)`; the first accepted attempt ends the loop, and after
      three rejected ones the last rejection stands. */
  method Retry<R, E>(verdicts: nat -> Result<R, E>) returns (r: Result<R, E>, attempts: nat)
    ensures 1 <= attempts <= 3
    ensures forall i :: 0 <= i < attempts - 1 ==> verdicts(i).Failure?
    ensures r == verdicts(attempts - 1)
    ensures r.Failure? ==> attempts == 3
  {
    attempts := 0;
    r := verdicts(0);
    for attempt := 0 to 3
      invariant attempts == attempt
      invariant forall i :: 0 <= i < attempt ==> verdicts(i).Failure?
      invariant attempt > 0 ==> r == verdicts(attempt - 1)
    {
      attempts := attempts + 1;
      r := verdicts(attempt);
      if r.Success? {
        return;
      }
    }
  }

  /** `_preprocess_agenda_text`: up to three requests, all with the user
      message `prompt`, each judged by `PreprocessVerdict`; the first
      accepted output is returned, and after three rejected ones the last
      rejection is raised (as the text `PreprocessFailureText`).
      `attempts` is the number of requests made. */
  method PreprocessAgenda(rawText: string, reply: nat -> Attempt)
    returns (r: Result<string, Rejection>, prompt: string, attempts: nat)
    ensures prompt == PreprocessPrompt(rawText)
    ensures 1 <= attempts <= 3
    ensures forall i :: 0 <= i < attempts - 1 ==> PreprocessVerdict(reply(i)).Failure?
    ensures r == PreprocessVerdict(reply(attempts - 1))
    ensures r.Failure? ==> attempts == 3
  {
    prompt := PreprocessPrompt(rawText);
    var verdicts := (i: nat) => PreprocessVerdict(reply(i));
    r, attempts := Retry(verdicts);
    forall i | 0 <= i < attempts - 1
      ensures PreprocessVerdict(reply(i)).Failure?
    {
      assert verdicts(i).Failure?;
    }
  }

  // ---------------------------------------------------------------------
  // Generating the three agent queries with bounded retries

  /** What one query-generation call yields: a JSON object with the three
      keys (`None` for a missing or falsy value), an output that is not a
      JSON object, or the text of a raised exception. */
  datatype QueryAttempt =
    | JsonObject(vndQuery: Option<string>, legalQuery: Option<string>, webQuery: Option<string>)
    | NotAnObject
    | QueryRaised(message: string)

  datatype Queries = Queries(vnd: string, legal: string, web: string)

  /** Why a query-generation attempt is rejected. */
  datatype QueryRejection = NotJson | MissingKeys | QueryException(message: string)

  /** The text of the exception each rejection stands for. */
  function QueryRejectionText(reason: QueryRejection): string {
    match reason
    case NotJson => "Ответ не JSON"
    case MissingKeys => "Отсутствуют обязательные ключи vnd_query/legal_query/web_query"
    case QueryException(message) => message
  }

  /** The text of the `RuntimeError` raised after three rejections. */
  function QueriesFailureText(last: QueryRejection): string {
    "Не удалось сгенерировать глобальные запросы gpt-4o: " + QueryRejectionText(last)
  }

  /** `str(value or "").strip()`. */
  function QueryText(value: Option<string>): string {
    Trim(Python, value.GetOr(""))
  }

  /** How one query-generation attempt ends. */
  function QueryVerdict(attempt: QueryAttempt): Result<Queries, QueryRejection> {
    match attempt
    case QueryRaised(message) => Failure(QueryException(message))
    case NotAnObject => Failure(NotJson)
    case JsonObject(vnd, legal, web) =>
      var q := Queries(QueryText(vnd), QueryText(legal), QueryText(web));
      if q.vnd != "" && q.legal != "" && q.web != "" then Success(q) else Failure(MissingKeys)
  }

  /** An attempt is accepted exactly when it is a JSON object whose three
      values are all non-blank; the queries are those values stripped, so
      none is empty or padded. */
  lemma QueryVerdictMeaning(attempt: QueryAttempt)
    ensures var r := QueryVerdict(attempt);
      && (r.Success? <==>
            && attempt.JsonObject?
            && !Blank(Python, attempt.vndQuery.GetOr(""))
            && !Blank(Python, attempt.legalQuery.GetOr(""))
            && !Blank(Python, attempt.webQuery.GetOr("")))
      && (r.Success? ==> r.value == Queries(QueryText(attempt.vndQuery), QueryText(attempt.legalQuery), QueryText(attempt.webQuery)))
      && (r.Success? ==>
            && !IsSpace(Python, r.value.vnd[0]) && !IsSpace(Python, r.value.vnd[|r.value.vnd| - 1])
            && !IsSpace(Python, r.value.legal[0]) && !IsSpace(Python, r.value.legal[|r.value.legal| - 1])
            && !IsSpace(Python, r.value.web[0]) && !IsSpace(Python, r.value.web[|r.value.web| - 1]))
      && (attempt.JsonObject? && r.Failure? ==> r.error == MissingKeys)
      && (attempt.NotAnObject? ==> r == Failure(NotJson))
      && (attempt.QueryRaised? ==> r == Failure(QueryException(attempt.message)))
  {
  }

  /** `_generate_global_agent_queries`: up to three attempts; the first
      with all three queries non-empty wins, and after three rejected ones
      the last rejection is raised (as the text `QueriesFailureText`).
      `attempts` is the number of requests made. */
  method GenerateQueries(reply: nat -> QueryAttempt) returns (r: Result<Queries, QueryRejection>, attempts: nat)
    ensures 1 <= attempts <= 3
    ensures forall i :: 0 <= i < attempts - 1 ==> QueryVerdict(reply(i)).Failure?
    ensures r == QueryVerdict(reply(attempts - 1))
    ensures r.Failure? ==> attempts == 3
  {
    var verdicts := (i: nat) => QueryVerdict(reply(i));
    r, attempts := Retry(verdicts);
    forall i | 0 <= i < attempts - 1
      ensures QueryVerdict(reply(i)).Failure?
    {
      assert verdicts(i).Failure?;
    }
  }

  // ---------------------------------------------------------------------
  // The director's decision

  const DecisionLabel: string := "Решение:"
  const For: string := "ЗА"
  const Against: string := "ПРОТИВ"
  const Abstain: string := "ВОЗДЕРЖАЛСЯ"

  /** `pattern` matches at position `i` when case is ignored. */
  predicate MatchesFolded(s: string, pattern: string, i: nat) {
    i + |pattern| <= |s| && forall j :: 0 <= j < |pattern| ==> Lower(s[i + j]) == Lower(pattern[j])
  }

  /** The end of the whitespace run starting at `i` (`\s*`). */
  function SkipSpaces(s: string, i: nat): (j: nat)
    requires i <= |s|
    ensures i <= j <= |s|
    ensures forall k :: i <= k < j ==> IsSpace(Python, s[k])
    ensures j < |s| ==> !IsSpace(Python, s[j])
    decreases |s| - i
  {
    if i < |s| && IsSpace(Python, s[i]) then SkipSpaces(s, i + 1) else i
  }

  /** The group a `tag\s*(first|second)` match at `i` captures, ignoring
      case, with the text's own case kept. */
  function CaptureAt(s: string, tag: string, first: string, second: string, i: nat): Option<string>
    requires i <= |s|
  {
    if !MatchesFolded(s, tag, i) then None
    else
      var j := SkipSpaces(s, i + |tag|);
      if MatchesFolded(s, first, j) then Some(s[j..j + |first|])
      else if MatchesFolded(s, second, j) then Some(s[j..j + |second|])
      else None
  }

  /** A capture needs the tag at `i` (any case); what it captures is a piece
      of the text after the tag that reads `first` or `second` when case is
      ignored. */
  lemma CaptureAtSpec(s: string, tag: string, first: string, second: string, i: nat)
    requires i <= |s|
    ensures var r := CaptureAt(s, tag, first, second, i);
      && (r.Some? ==> MatchesFolded(s, tag, i))
      && (r.Some? ==> exists j: nat :: OccursAt(s, r.value, j) && i + |tag| <= j)
      && (r.Some? ==>
            (|r.value| == |first| && MatchesFolded(r.value, first, 0))
            || (|r.value| == |second| && MatchesFolded(r.value, second, 0)))
  {
    if MatchesFolded(s, tag, i) {
      var j := SkipSpaces(s, i + |tag|);
      if MatchesFolded(s, first, j) {
        assert OccursAt(s, s[j..j + |first|], j);
      } else if MatchesFolded(s, second, j) {
        assert OccursAt(s, s[j..j + |second|], j);
      }
    }
  }

  /** `re.search`: the capture of the leftmost match at or after `from`. */
  function SearchCapture(s: string, tag: string, first: string, second: string, from: nat): (r: Option<string>)
    requires from <= |s|
    decreases |s| - from
  {
    if CaptureAt(s, tag, first, second, from).Some? then CaptureAt(s, tag, first, second, from)
    else if from == |s| then None
    else SearchCapture(s, tag, first, second, from + 1)
  }

  /** No position in `lo..hi` holds a capture. */
  predicate NoCaptureIn(s: string, tag: string, first: string, second: string, lo: nat, hi: nat) {
    forall k :: lo <= k < hi && k <= |s| ==> CaptureAt(s, tag, first, second, k).None?
  }

  /** `SearchCapture` returns the capture at the leftmost position where the
      pattern matches, and nothing only when it matches nowhere. */
  lemma {:induction false} SearchCaptureSpec(s: string, tag: string, first: string, second: string, from: nat)
    requires from <= |s|
    ensures var r := SearchCapture(s, tag, first, second, from);
      && (r.Some? ==> exists i :: from <= i <= |s| && CaptureAt(s, tag, first, second, i) == r
                        && NoCaptureIn(s, tag, first, second, from, i))
      && (r.None? ==> NoCaptureIn(s, tag, first, second, from, |s| + 1))
    decreases |s| - from
  {
    var here := CaptureAt(s, tag, first, second, from);
    if here.Some? {
      assert SearchCapture(s, tag, first, second, from) == here;
      assert NoCaptureIn(s, tag, first, second, from, from);
    } else if from == |s| {
      assert SearchCapture(s, tag, first, second, from) == None;
      assert NoCaptureIn(s, tag, first, second, from, |s| + 1);
    } else {
      SearchCaptureSpec(s, tag, first, second, from + 1);
      var r := SearchCapture(s, tag, first, second, from + 1);
      assert SearchCapture(s, tag, first, second, from) == r;
      var hi := if r.Some? then
        var i :| from + 1 <= i <= |s| && CaptureAt(s, tag, first, second, i) == r
                 && NoCaptureIn(s, tag, first, second, from + 1, i);
        i
      else |s| + 1;
      assert NoCaptureIn(s, tag, first, second, from + 1, hi);
      assert NoCaptureIn(s, tag, first, second, from, hi) by {
        forall k | from <= k < hi ensures CaptureAt(s, tag, first, second, k).None? {
          if k > from {
            assert from + 1 <= k < hi;
          }
        }
      }
    }
  }

  /** The decision read from the director's answer: the `ЗА`/`ПРОТИВ`
      after the first `Решение:` (any case), or `ВОЗДЕРЖАЛСЯ` when there is
      none or the request failed (`None`). */
  function ExtractDecision(answer: Option<string>): (d: string)
  {
    if answer.None? then Abstain
    else SearchCapture(answer.value, DecisionLabel, For, Against, 0).GetOr(Abstain)
  }

  /** A decision other than abstention is a verbatim piece of the answer
      that reads `ЗА` or `ПРОТИВ` when case is ignored, and abstention is
      given exactly when no such piece follows the tag. */
  lemma DecisionFromAnswer(answer: string)
    ensures var d := ExtractDecision(Some(answer));
      && (d == Abstain <==> SearchCapture(answer, DecisionLabel, For, Against, 0).None?)
      && (d != Abstain ==> Contains(answer, d))
      && (d != Abstain ==>
            (|d| == |For| && MatchesFolded(d, For, 0)) || (|d| == |Against| && MatchesFolded(d, Against, 0)))
  {
    var r := SearchCapture(answer, DecisionLabel, For, Against, 0);
    SearchCaptureSpec(answer, DecisionLabel, For, Against, 0);
    if r.Some? {
      var i :| 0 <= i <= |answer| && CaptureAt(answer, DecisionLabel, For, Against, i) == r;
      CaptureAtSpec(answer, DecisionLabel, For, Against, i);
      var j: nat :| OccursAt(answer, r.value, j) && i + |DecisionLabel| <= j;
      assert |r.value| == 2 || |r.value| == 6;
    }
  }

  /** A failed request abstains. */
  lemma FailureAbstains()
    ensures ExtractDecision(None) == Abstain
  {
  }

  // ---------------------------------------------------------------------
  // Summary and report

  /** One agenda item's result as the summary and the report read it. */
  datatype ItemResult = ItemResult(
    item: AgendaItem,
    decision: string,
    reasoning: string,
    risks: Option<string>,      // `None` when the key is absent
    recommendations: string)

  /** `decisions.count(d)`. */
  function Count(results: seq<ItemResult>, d: string): (n: nat)
    ensures n <= |results|
  {
    if results == [] then 0
    else Count(results[..|results| - 1], d) + (if results[|results| - 1].decision == d then 1 else 0)
  }

  /** The three counts never add up to more than the results: each result
      has one decision, and decisions in another case are counted nowhere. */
  lemma {:induction false} CountsBounded(results: seq<ItemResult>, a: string, b: string, c: string)
    requires a != b && b != c && a != c
    ensures Count(results, a) + Count(results, b) + Count(results, c) <= |results|
  {
    if results != [] {
      CountsBounded(results[..|results| - 1], a, b, c);
    }
  }

  /** When every decision is one of the three labels, exactly as spelled,
      the three counts add up to the number of results. */
  lemma {:induction false} CountsPartition(results: seq<ItemResult>, a: string, b: string, c: string)
    requires a != b && b != c && a != c
    requires forall i :: 0 <= i < |results| ==> results[i].decision in [a, b, c]
    ensures Count(results, a) + Count(results, b) + Count(results, c) == |results|
  {
    if results != [] {
      CountsPartition(results[..|results| - 1], a, b, c);
    }
  }

  /** The risk text mentions a high or critical risk. */
  predicate HighRisk(r: ItemResult) {
    var risks := LowerStr(r.risks.GetOr(""));
    Contains(risks, "высокий риск") || Contains(risks, "критический")
  }

  /** The numbers of the high-risk items, in input order. */
  function HighRiskNumbers(results: seq<ItemResult>): (r: seq<string>)
    ensures |r| <= |results|
  {
    if results == [] then []
    else (if HighRisk(results[0]) then [results[0].item.number] else []) + HighRiskNumbers(results[1..])
  }

  /** A number is listed exactly when some high-risk result carries it. */
  lemma {:induction false} HighRiskMembers(results: seq<ItemResult>, n: string)
    ensures n in HighRiskNumbers(results) <==>
      exists i :: 0 <= i < |results| && HighRisk(results[i]) && results[i].item.number == n
  {
    if results != [] {
      HighRiskMembers(results[1..], n);
      if n in HighRiskNumbers(results[1..]) {
        var i :| 0 <= i < |results[1..]| && HighRisk(results[1..][i]) && results[1..][i].item.number == n;
        assert results[i + 1] == results[1..][i];
      }
      forall i | 1 <= i < |results| && HighRisk(results[i]) && results[i].item.number == n
        ensures n in HighRiskNumbers(results[1..])
      {
        assert results[1..][i - 1] == results[i];
      }
    }
  }

  /** The high-risk list keeps the input order: it distributes over
      concatenation. */
  lemma {:induction false} HighRiskAppend(xs: seq<ItemResult>, ys: seq<ItemResult>)
    ensures HighRiskNumbers(xs + ys) == HighRiskNumbers(xs) + HighRiskNumbers(ys)
  {
    if xs == [] {
      assert xs + ys == ys;
    } else {
      assert (xs + ys)[1..] == xs[1..] + ys;
      HighRiskAppend(xs[1..], ys);
    }
  }

  datatype Summary = Summary(
    totalItems: nat,
    forCount: nat,
    againstCount: nat,
    abstainCount: nat,
    approvalRate: real,
    highRiskItems: seq<string>)

  /** `for_count / total if total > 0 else 0`, as an exact fraction. */
  function ApprovalRate(forCount: nat, total: nat): (rate: real)
    requires forCount <= total
    ensures 0.0 <= rate <= 1.0
    ensures total == 0 ==> rate == 0.0
    ensures total > 0 ==> rate * total as real == forCount as real
    ensures rate == 1.0 <==> total > 0 && forCount == total
  {
    if total > 0 then forCount as real / total as real else 0.0
  }

  /** `_generate_summary`. */
  function GenerateSummary(results: seq<ItemResult>): (s: Summary)
    ensures s.totalItems == |results|
    ensures s.forCount == Count(results, For) && s.againstCount == Count(results, Against)
    ensures s.abstainCount == Count(results, Abstain)
    ensures s.forCount + s.againstCount + s.abstainCount <= s.totalItems
    ensures s.highRiskItems == HighRiskNumbers(results)
    ensures 0.0 <= s.approvalRate <= 1.0
    ensures s.approvalRate == 1.0 <==> |results| > 0 && s.forCount == |results|
  {
    CountsBounded(results, For, Against, Abstain);
    var forCount := Count(results, For);
    Summary(
      |results|,
      forCount,
      Count(results, Against),
      Count(results, Abstain),
      ApprovalRate(forCount, |results|),
      HighRiskNumbers(results))
  }

  /** The report's header lines; `approvalText` is the approval rate as
      `:.1%` renders it. */
  function ReportHeader(timestamp: string, itemsCount: nat, s: Summary, approvalText: string): (lines: seq<string>)
    ensures |lines| == 17
  {
    [ Repeat('=', 80),
      "SKAI — независимый (цифровой) член СД",
      "Анализ повестки дня Совета директоров АО «Самрук-Казына»",
      Repeat('=', 80),
      "Дата анализа: " + timestamp,
      "Количество пунктов: " + NatToString(itemsCount),
      "",
      "СВОДКА РЕШЕНИЙ:",
      "• ЗА: " + NatToString(s.forCount),
      "• ПРОТИВ: " + NatToString(s.againstCount),
      "• ВОЗДЕРЖАЛСЯ: " + NatToString(s.abstainCount),
      "• Процент одобрения: " + approvalText,
      "",
      Repeat('=', 80),
      "ДЕТАЛЬНЫЙ АНАЛИЗ ПО ПУНКТАМ",
      Repeat('=', 80),
      "" ]
  }

  /** The lines one result adds to the report. */
  function ResultLines(r: ItemResult): (lines: seq<string>)
    requires r.risks.Some?
    ensures |lines| == 15
  {
    [ "ПУНКТ " + r.item.number + ": " + r.item.title,
      Repeat('-', 60),
      "РЕШЕНИЕ: " + r.decision,
      "",
      "ОБОСНОВАНИЕ (по вопросу №" + r.item.number + " повестки — " + r.item.title + "):",
      r.reasoning,
      "",
      "ВЫЯВЛЕННЫЕ РИСКИ:",
      r.risks.value,
      "",
      "РЕКОМЕНДАЦИИ:",
      r.recommendations,
      "",
      Repeat('=', 80),
      "" ]
  }

  /** `_generate_readable_report`: the header, then each result's block in
      input order, joined with line breaks.  `lines` is `report_lines`.
      Every result must carry its risks (`result["risks"]` raises otherwise). */
  method ReadableReport(timestamp: string, itemsCount: nat, s: Summary, approvalText: string, results: seq<ItemResult>)
    returns (report: string, lines: seq<string>)
    requires forall k :: 0 <= k < |results| ==> results[k].risks.Some?
    ensures |lines| == 17 + 15 * |results|
    ensures lines[..17] == ReportHeader(timestamp, itemsCount, s, approvalText)
    ensures forall k :: 0 <= k < |results| ==> lines[17 + 15 * k..17 + 15 * (k + 1)] == ResultLines(results[k])
    ensures report == JoinWith(lines, "\n")
  {
    lines := ReportHeader(timestamp, itemsCount, s, approvalText);
    for i := 0 to |results|
      invariant |lines| == 17 + 15 * i
      invariant lines[..17] == ReportHeader(timestamp, itemsCount, s, approvalText)
      invariant forall k :: 0 <= k < i ==> lines[17 + 15 * k..17 + 15 * (k + 1)] == ResultLines(results[k])
    {
      var block := ResultLines(results[i]);
      var before := lines;
      lines := lines + block;
      forall k | 0 <= k < i + 1
        ensures lines[17 + 15 * k..17 + 15 * (k + 1)] == ResultLines(results[k])
      {
        if k < i {
          assert lines[17 + 15 * k..17 + 15 * (k + 1)] == before[17 + 15 * k..17 + 15 * (k + 1)];
        } else {
          assert lines[17 + 15 * k..17 + 15 * (k + 1)] == block;
        }
      }
    }
    report := JoinWith(lines, "\n");
  }
}
