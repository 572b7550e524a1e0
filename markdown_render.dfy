/** The pure helpers of the Markdown renderer component: the heading slug
    (`slugify`), the ids and anchors derived from it for `h1`..`h3`, and the
    rule that marks external links. */
module MarkdownRender {
  import opened Wrappers
  import opened Text

  // ---------------------------------------------------------------------
  // Slugs

  /** The characters the class `[a-zа-я0-9-]` admits (`ё` is outside `а-я`). */
  predicate SlugChar(c: char) {
    ('a' <= c <= 'z') || ('\U{430}' <= c <= '\U{44F}') || ('0' <= c <= '9') || c == '-'
  }

  /** What `[^a-zа-я0-9\s-]` does not remove. */
  predicate Kept(c: char) {
    SlugChar(c) || IsSpace(ECMAScript, c)
  }

  /** No two consecutive dashes. */
  predicate NoDoubleDash(s: string) {
    forall i :: 0 <= i < |s| - 1 ==> !(s[i] == '-' && s[i + 1] == '-')
  }

  /** The shape of every slug: only slug characters, no `--`. */
  predicate IsSlug(s: string) {
    (forall i :: 0 <= i < |s| ==> SlugChar(s[i])) && NoDoubleDash(s)
  }

  /** `.replace(/[^a-zа-я0-9\s-]/g, '')`. */
  function RemoveDisallowed(s: string): (r: string)
    ensures |r| <= |s|
    ensures forall i :: 0 <= i < |r| ==> Kept(r[i])
    ensures (forall i :: 0 <= i < |s| ==> Kept(s[i])) ==> r == s
  {
    if s == [] then []
    else (if Kept(s[0]) then [s[0]] else []) + RemoveDisallowed(s[1..])
  }

  /** One character is kept exactly when the class admits it. */
  lemma RemoveDisallowedOne(c: char)
    ensures RemoveDisallowed([c]) == (if Kept(c) then [c] else [])
  {
    assert [c][1..] == [];
  }

  /** The filter works piece by piece, so it keeps the admitted characters
      in their order and drops the others. */
  lemma {:induction false} RemoveDisallowedAppend(a: string, b: string)
    ensures RemoveDisallowed(a + b) == RemoveDisallowed(a) + RemoveDisallowed(b)
  {
    if a != [] {
      assert (a + b)[1..] == a[1..] + b;
      RemoveDisallowedAppend(a[1..], b);
    } else {
      assert a + b == b;
    }
  }

  /** `.replace(/\s+/g, '-')`: every maximal whitespace run becomes one
      dash; `inRun` says the character before `s` was whitespace of the same
      run. */
  function DashSpaces(s: string, inRun: bool): (r: string)
    requires forall i :: 0 <= i < |s| ==> Kept(s[i])
    ensures forall i :: 0 <= i < |r| ==> SlugChar(r[i])
  {
    if s == [] then []
    else if IsSpace(ECMAScript, s[0]) then (if inRun then [] else ['-']) + DashSpaces(s[1..], true)
    else
      assert Kept(s[0]);
      [s[0]] + DashSpaces(s[1..], false)
  }

  /** A text without whitespace is left as it is. */
  lemma {:induction false} DashSpacesFixesSlugChars(s: string, inRun: bool)
    requires forall i :: 0 <= i < |s| ==> SlugChar(s[i])
    ensures DashSpaces(s, inRun) == s
  {
    if s != [] {
      DashSpacesFixesSlugChars(s[1..], false);
    }
  }

  /** A run of whitespace at the front, however long, gives one dash, or
      none when it continues a run already turned into one. */
  lemma {:induction false} DashSpacesRun(s: string, inRun: bool, n: nat)
    requires forall i :: 0 <= i < |s| ==> Kept(s[i])
    requires 0 < n <= |s| && Blank(ECMAScript, s[..n])
    ensures DashSpaces(s, inRun) == (if inRun then [] else ['-']) + DashSpaces(s[n..], true)
  {
    assert IsSpace(ECMAScript, s[..n][0]);
    if n > 1 {
      var run := s[..n];
      var rest := s[1..][..n - 1];
      forall i | 0 <= i < n - 1 ensures IsSpace(ECMAScript, rest[i]) {
        assert rest[i] == run[i + 1];
      }
      DashSpacesRun(s[1..], true, n - 1);
      assert s[1..][n - 1..] == s[n..];
    }
  }

  /** A word without whitespace is copied as it is. */
  lemma {:induction false} DashSpacesWord(w: string, b: string, inRun: bool)
    requires w != [] && forall i :: 0 <= i < |w| ==> SlugChar(w[i]) && !IsSpace(ECMAScript, w[i])
    requires forall i :: 0 <= i < |b| ==> Kept(b[i])
    ensures DashSpaces(w + b, inRun) == w + DashSpaces(b, false)
  {
    var rest := w[1..] + b;
    assert w + b == [w[0]] + rest;
    DashSpacesCopy(w[0], rest, inRun);
    if |w| > 1 {
      DashSpacesWord(w[1..], b, false);
    } else {
      assert rest == b;
    }
    assert w == [w[0]] + w[1..];
  }

  lemma DashSpacesCopy(c: char, t: string, inRun: bool)
    requires SlugChar(c) && !IsSpace(ECMAScript, c)
    requires forall i :: 0 <= i < |t| ==> Kept(t[i])
    ensures DashSpaces([c] + t, inRun) == [c] + DashSpaces(t, false)
  {
    assert ([c] + t)[1..] == t;
  }

  /** `.replace(/-+/g, '-')`: every maximal dash run becomes one dash;
      `inRun` says the character before `s` was a dash. */
  function CollapseDashes(s: string, inRun: bool): (r: string)
    requires forall i :: 0 <= i < |s| ==> SlugChar(s[i])
    ensures IsSlug(r)
    ensures inRun && r != [] ==> r[0] != '-'
  {
    if s == [] then []
    else if s[0] == '-' then (if inRun then [] else ['-']) + CollapseDashes(s[1..], true)
    else [s[0]] + CollapseDashes(s[1..], false)
  }

  /** A slug is left as it is (after a dash, only when it does not start
      with another). */
  lemma {:induction false} CollapseDashesFixesSlugs(s: string, inRun: bool)
    requires IsSlug(s) && (inRun && s != [] ==> s[0] != '-')
    ensures CollapseDashes(s, inRun) == s
  {
    if s != [] {
      var t := s[1..];
      assert IsSlug(t) by {
        forall i | 0 <= i < |t| - 1 ensures !(t[i] == '-' && t[i + 1] == '-') {
          assert t[i] == s[i + 1] && t[i + 1] == s[i + 2];
        }
      }
      if t != [] && s[0] == '-' {
        assert t[0] == s[1];
      }
      CollapseDashesFixesSlugs(t, s[0] == '-');
    }
  }

  /** A run of dashes at the front, however long, gives one dash, or none
      when it continues a run already collapsed. */
  lemma {:induction false} CollapseDashesRun(s: string, inRun: bool, n: nat)
    requires forall i :: 0 <= i < |s| ==> SlugChar(s[i])
    requires 0 < n <= |s| && forall i :: 0 <= i < n ==> s[i] == '-'
    ensures CollapseDashes(s, inRun) == (if inRun then [] else ['-']) + CollapseDashes(s[n..], true)
  {
    if n > 1 {
      CollapseDashesRun(s[1..], true, n - 1);
      assert s[1..][n - 1..] == s[n..];
    }
  }

  /** A word without dashes is copied as it is. */
  lemma {:induction false} CollapseDashesWord(w: string, b: string, inRun: bool)
    requires w != [] && forall i :: 0 <= i < |w| ==> SlugChar(w[i]) && w[i] != '-'
    requires forall i :: 0 <= i < |b| ==> SlugChar(b[i])
    ensures CollapseDashes(w + b, inRun) == w + CollapseDashes(b, false)
  {
    var rest := w[1..] + b;
    assert w + b == [w[0]] + rest;
    CollapseDashesCopy(w[0], rest, inRun);
    if |w| > 1 {
      CollapseDashesWord(w[1..], b, false);
    } else {
      assert rest == b;
    }
    assert w == [w[0]] + w[1..];
  }

  lemma CollapseDashesCopy(c: char, t: string, inRun: bool)
    requires SlugChar(c) && c != '-'
    requires forall i :: 0 <= i < |t| ==> SlugChar(t[i])
    ensures CollapseDashes([c] + t, inRun) == [c] + CollapseDashes(t, false)
  {
    assert ([c] + t)[1..] == t;
  }

  /** `slugify`: lower-case, trim, drop the characters outside the class,
      turn whitespace runs into one dash, collapse dash runs. */
  function Slugify(value: string): (r: string)
    ensures IsSlug(r)
  {
    var trimmed := Trim(ECMAScript, LowerStr(value));
    CollapseDashes(DashSpaces(RemoveDisallowed(trimmed), false), false)
  }

  /** A slug never holds whitespace: each whitespace run became a dash. */
  lemma SlugHasNoSpace(value: string)
    ensures forall i :: 0 <= i < |Slugify(value)| ==> !IsSpace(ECMAScript, Slugify(value)[i])
  {
  }

  /** Every step of `slugify` leaves a slug unchanged. */
  lemma {:induction false} SlugifyFixesSlugs(s: string)
    requires IsSlug(s)
    ensures Slugify(s) == s
  {
    forall i | 0 <= i < |s| ensures Lower(s[i]) == s[i] {
      assert !IsUpperLetter(s[i]);
    }
    assert LowerStr(s) == s;
    TrimUnpadded(ECMAScript, s);
    assert RemoveDisallowed(s) == s;
    DashSpacesFixesSlugChars(s, false);
    CollapseDashesFixesSlugs(s, false);
  }

  /** `slugify(slugify(x)) == slugify(x)`. */
  lemma SlugifyIdempotent(value: string)
    ensures Slugify(Slugify(value)) == Slugify(value)
  {
    SlugifyFixesSlugs(Slugify(value));
  }

  /** Trimming comes before the character removal, so a slug can end in a
      dash: "a !" becomes "a-". */
  lemma SlugKeepsTrailingDash()
    ensures Slugify("a !") == "a-"
  {
    assert LowerStr("a !") == "a !";
    assert Trim(ECMAScript, "a !") == "a !" by { TrimUnpadded(ECMAScript, "a !"); }
    assert RemoveDisallowed("a !") == "a ";
    assert DashSpaces("a ", false) == "a-";
    assert CollapseDashes("a-", false) == "a-";
  }

  // ---------------------------------------------------------------------
  // Headings and links

  /** What an `h1`, `h2` or `h3` renderer puts on the page besides the
      children: the element id and the anchor's `href`. */
  datatype Heading = Heading(level: nat, id: string, href: string)

  /** The `h1`/`h2`/`h3` renderers; `text` is `String(props.children)`. */
  function RenderHeading(level: nat, text: string): (h: Heading)
    requires 1 <= level <= 3
    ensures h.level == level
    ensures h.id == Slugify(text) && IsSlug(h.id)
    ensures h.href == "#" + h.id
  {
    var id := Slugify(text);
    Heading(level, id, "#" + id)
  }

  /** A heading whose text is already its own slug keeps it as its id, so the
      anchor of a heading links back to that same heading. */
  lemma HeadingIdStable(level: nat, text: string)
    requires 1 <= level <= 3
    ensures RenderHeading(level, RenderHeading(level, text).id) == RenderHeading(level, text)
  {
    SlugifyIdempotent(text);
  }

  /** The `target` and `rel` attributes of a rendered link; `None` is
      `undefined`. */
  datatype LinkAttributes = LinkAttributes(target: Option<string>, rel: Option<string>)

  function External(href: Option<string>): bool {
    href.Some? && StartsWith(href.value, "http")
  }

  /** The `a` renderer's two attributes. */
  function RenderLink(href: Option<string>): (a: LinkAttributes)
    ensures a.target.Some? <==> External(href)
    ensures a.rel.Some? <==> External(href)
    ensures a.target.Some? ==> a.target.value == "_blank"
    ensures a.rel.Some? ==> a.rel.value == "noopener noreferrer"
  {
    if External(href) then LinkAttributes(Some("_blank"), Some("noopener noreferrer"))
    else LinkAttributes(None, None)
  }

  /** A link without `href`, or to an in-page anchor, opens in place. */
  lemma LocalLinksOpenInPlace(href: Option<string>)
    requires href.None? || (href.value != [] && href.value[0] == '#')
    ensures RenderLink(href) == LinkAttributes(None, None)
  {
  }
}
