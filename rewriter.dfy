/** The per-blockquote rewriter of themes/butterfly/source/js/callout-parser.js
    (lines 78-159): a blockquote whose first paragraph opens with a `[!TAG]`
    marker is tagged with a `data-callout` category and its content replaced by
    a title bar and the body parts of the quote. */
module Rewriter {
  import opened Options
  import opened Text
  import opened Registry
  import opened Marker
  import opened LineBreaks

  /** A paragraph of the quote: its plain text (`textContent`) and its inner
      HTML, taken as two independent inputs. */
  datatype Paragraph = Paragraph(text: string, html: string)

  /** The content of a blockquote: its paragraphs as the author wrote them, or
      the HTML the rewriter put in their place. */
  datatype Content = Paragraphs(ps: seq<Paragraph>) | Html(html: string)

  /** What the rewriter can change about a blockquote: the `data-callout`
      attribute and the content. */
  datatype BlockState = BlockState(callout: Option<string>, content: Content)

  /** Everything the rewriter derives from a marked quote before it writes. */
  datatype Callout = Callout(category: string, icon: string, title: string, parts: seq<string>)

  /** Content is replaced only together with setting the attribute, so a quote
      without the attribute still holds its paragraphs. */
  predicate Valid(st: BlockState) {
    st.callout.None? ==> st.content.Paragraphs?
  }

  /** `match[2] ? match[2].trim() : ''` (line 94). */
  function CustomTitle(title: Option<string>): (r: string)
    ensures title.None? ==> r == ""
    ensures title.Some? ==> r == Trim(title.value)
  {
    match title
    case None => ""
    case Some(t) => Trim(t)
  }

  /** `customTitle || CALLOUT_TITLES[rawType] || <capitalised tag>` (line 101):
      a custom title that is not blank wins over the default title. */
  function DisplayTitle(title: Option<string>, tag: string): (r: string)
    ensures CustomTitle(title) != [] ==> r == CustomTitle(title)
    ensures CustomTitle(title) == [] && tag in Titles ==> r == Titles[tag]
    ensures CustomTitle(title) == [] && tag !in Titles ==> r == UpperFirst(tag)
    ensures tag != [] ==> r != []
  {
    var custom := CustomTitle(title);
    if custom != [] then custom else DefaultTitle(tag)
  }

  /** The lines of the first paragraph that are kept, each trimmed, blank ones
      dropped, in order (lines 121-133). */
  function KeepNonBlank(lines: seq<string>): (r: seq<string>)
    ensures |r| <= |lines|
    decreases |lines|
  {
    if lines == [] then []
    else
      var t := Trim(lines[0]);
      (if t == [] then [] else [t]) + KeepNonBlank(lines[1..])
  }

  /** The inner HTML of the later paragraphs, verbatim (lines 137-140). */
  function Htmls(ps: seq<Paragraph>): (r: seq<string>)
    ensures |r| == |ps|
    ensures forall i :: 0 <= i < |ps| ==> r[i] == ps[i].html
  {
    seq(|ps|, i requires 0 <= i < |ps| => ps[i].html)
  }

  /** The lines of the first paragraph's HTML, with the marker deleted from
      the first line (lines 117-121). */
  function FirstLines(htmlLines: seq<string>): (r: seq<string>)
    requires htmlLines != []
    ensures |r| == |htmlLines| && |r[0]| <= |htmlLines[0]|
    ensures forall i :: 0 < i < |r| ==> r[i] == htmlLines[i]
  {
    [StripFirstMarker(htmlLines[0])] + htmlLines[1..]
  }

  /** `contentParts` (lines 107-140): the kept lines of the first paragraph,
      then every later paragraph as it is. */
  function BodyParts(firstHtml: string, others: seq<Paragraph>): (r: seq<string>)
    ensures |others| <= |r| <= |SplitBr(firstHtml).pieces| + |others|
  {
    KeepNonBlank(FirstLines(SplitBr(firstHtml).pieces)) + Htmls(others)
  }

  /** The marker of the first paragraph and what the rewriter derives from it,
      or None when the quote has no paragraph or its first paragraph does not
      open with a marker (lines 82-101, 107-140). */
  function Analyze(ps: seq<Paragraph>): (r: Option<Callout>)
    ensures r.Some? <==> ps != [] && MatchMarker(ps[0].text).Some?
  {
    if ps == [] then None
    else match MatchMarker(ps[0].text)
      case None => None
      case Some(m) =>
        var tag := Lower(m.tag);
        Some(Callout(Category(tag), Icon(tag), DisplayTitle(m.title, tag), BodyParts(ps[0].html, ps[1..])))
  }

  const TitleOpen: string := "<div class=\"callout-title\">"
  const ContentOpen: string := "<div class=\"callout-content\">"

  /** The title bar (lines 154-157): the icon span, then the title span. */
  function TitleHtml(icon: string, title: string): (r: string)
    ensures |r| > |TitleOpen| && r[..|TitleOpen|] == TitleOpen
  {
    TitleOpen
      + "<span class=\"callout-title-icon\">" + icon + "</span>"
      + "<span class=\"callout-title-text\">" + title + "</span>"
      + "</div>"
  }

  /** Every part wrapped in its own `<p>`, in order (lines 146-148). */
  function ParagraphsHtml(parts: seq<string>): (r: string)
    ensures parts == [] <==> r == []
    decreases |parts|
  {
    if parts == [] then ""
    else ParagraphsHtml(parts[..|parts| - 1]) + "<p>" + parts[|parts| - 1] + "</p>"
  }

  /** The content box (lines 143-150), present only when there are parts. */
  function ContentHtml(parts: seq<string>): (r: string)
    ensures r == [] <==> parts == []
    ensures parts != [] ==> r == ContentOpen + ParagraphsHtml(parts) + "</div>"
  {
    if parts == [] then "" else ContentOpen + ParagraphsHtml(parts) + "</div>"
  }

  /** The new inner HTML of the quote (line 153). */
  function Render(c: Callout): (r: string)
    ensures r == TitleHtml(c.icon, c.title) + ContentHtml(c.parts)
    ensures c.parts == [] <==> r == TitleHtml(c.icon, c.title)
  {
    TitleHtml(c.icon, c.title) + ContentHtml(c.parts)
  }

  /** One iteration of the `forEach` (lines 78-159). */
  function Rewrite(st: BlockState): (r: BlockState)
    ensures st.callout.Some? ==> r == st
    ensures Valid(st) ==> Valid(r)
    ensures st.callout.None? && st.content.Paragraphs? ==>
              match Analyze(st.content.ps)
              case None => r == st
              case Some(c) => r == BlockState(Some(c.category), Html(Render(c)))
  {
    if st.callout.Some? then st
    else match st.content
      case Html(_) => st
      case Paragraphs(ps) =>
        match Analyze(ps)
        case None => st
        case Some(c) => BlockState(Some(c.category), Html(Render(c)))
  }

  // ---------------------------------------------------------------------
  // Properties of the body parts and the rendered HTML

  lemma {:induction false} KeepNonBlankAppend(a: seq<string>, b: seq<string>)
    ensures KeepNonBlank(a + b) == KeepNonBlank(a) + KeepNonBlank(b)
    decreases |a|
  {
    if a != [] {
      assert (a + b)[0] == a[0];
      assert (a + b)[1..] == a[1..] + b;
      KeepNonBlankAppend(a[1..], b);
      var t := Trim(a[0]);
      var x := if t == [] then [] else [t];
      assert KeepNonBlank(a + b) == x + (KeepNonBlank(a[1..]) + KeepNonBlank(b));
      assert KeepNonBlank(a) == x + KeepNonBlank(a[1..]);
    } else {
      assert a + b == b;
    }
  }

  lemma KeepNonBlankOne(line: string)
    ensures KeepNonBlank([line]) == if Trim(line) == [] then [] else [Trim(line)]
  {
    assert [line][1..] == [];
  }

  /** Every kept line is trimmed and not blank. */
  lemma {:induction false} KeptLinesTrimmed(lines: seq<string>)
    ensures forall i :: 0 <= i < |KeepNonBlank(lines)| ==>
              var l := KeepNonBlank(lines)[i]; l != [] && !IsWs(l[0]) && !IsWs(l[|l| - 1])
    decreases |lines|
  {
    if lines != [] {
      KeptLinesTrimmed(lines[1..]);
    }
  }

  /** One more line read: it is kept, trimmed, unless it is blank. */
  lemma KeepNonBlankSnoc(lines: seq<string>, i: nat)
    requires i < |lines|
    ensures KeepNonBlank(lines[..i + 1])
         == KeepNonBlank(lines[..i]) + if Trim(lines[i]) == [] then [] else [Trim(lines[i])]
  {
    assert lines[..i + 1] == lines[..i] + [lines[i]];
    KeepNonBlankAppend(lines[..i], [lines[i]]);
    KeepNonBlankOne(lines[i]);
  }

  lemma HtmlsSnoc(ps: seq<Paragraph>, j: nat)
    requires j < |ps|
    ensures Htmls(ps[..j + 1]) == Htmls(ps[..j]) + [ps[j].html]
  {
    assert ps[..j + 1] == ps[..j] + [ps[j]];
    HtmlsAppend(ps[..j], [ps[j]]);
  }

  /** The body: the kept lines of the first paragraph, each trimmed and not
      blank, then the HTML of every later paragraph, verbatim, blank or not,
      in document order (lines 117-140). */
  lemma BodyPartsOrder(firstHtml: string, others: seq<Paragraph>)
    ensures var r := BodyParts(firstHtml, others);
            && |r| >= |others|
            && r[|r| - |others|..] == Htmls(others)
            && forall i :: 0 <= i < |r| - |others| ==> r[i] != [] && !IsWs(r[i][0]) && !IsWs(r[i][|r[i]| - 1])
  {
    var lines := FirstLines(SplitBr(firstHtml).pieces);
    KeptLinesTrimmed(lines);
    BodyPartsOf(firstHtml, others);
    ConcatSides(KeepNonBlank(lines), Htmls(others));
  }

  lemma ConcatSides<T>(a: seq<T>, b: seq<T>)
    ensures |a + b| - |b| == |a|
    ensures (a + b)[|a|..] == b
    ensures forall i :: 0 <= i < |a| ==> (a + b)[i] == a[i]
  {
  }

  lemma HtmlsAppend(a: seq<Paragraph>, b: seq<Paragraph>)
    ensures Htmls(a + b) == Htmls(a) + Htmls(b)
  {
    assert forall i :: 0 <= i < |a + b| ==> Htmls(a + b)[i] == (Htmls(a) + Htmls(b))[i];
  }

  /** Kept lines are kept again unchanged: trimming and dropping blank lines
      is done once and for all. */
  lemma {:induction false} KeepNonBlankIdempotent(lines: seq<string>)
    ensures KeepNonBlank(KeepNonBlank(lines)) == KeepNonBlank(lines)
    decreases |lines|
  {
    if lines != [] {
      var t := Trim(lines[0]);
      var k := KeepNonBlank(lines[1..]);
      KeepNonBlankIdempotent(lines[1..]);
      KeepNonBlankAppend(if t == [] then [] else [t], k);
      if t != [] {
        TrimIdempotent(lines[0]);
        KeepNonBlankOne(t);
      }
    }
  }

  lemma {:induction false} ParagraphsHtmlAppend(a: seq<string>, b: seq<string>)
    ensures ParagraphsHtml(a + b) == ParagraphsHtml(a) + ParagraphsHtml(b)
    decreases |b|
  {
    if b == [] {
      assert a + b == a;
    } else {
      var c := a + b;
      assert c[..|c| - 1] == a + b[..|b| - 1];
      assert c[|c| - 1] == b[|b| - 1];
      ParagraphsHtmlAppend(a, b[..|b| - 1]);
    }
  }

  /** Each part becomes one `<p>` element, in order. */
  lemma ParagraphsHtmlCons(p: string, rest: seq<string>)
    ensures ParagraphsHtml([p] + rest) == "<p>" + p + "</p>" + ParagraphsHtml(rest)
  {
    ParagraphsHtmlAppend([p], rest);
    assert [p][..0] == [];
  }

  // ---------------------------------------------------------------------
  // Properties of one rewrite

  /** A quote is rewritten at most once: the rewrite marks it, and a marked
      quote is skipped (line 80). */
  lemma RewriteIdempotent(st: BlockState)
    ensures Rewrite(Rewrite(st)) == Rewrite(st)
  {
    if st.callout.None? && st.content.Paragraphs? {
      match Analyze(st.content.ps)
      case None =>
      case Some(c) =>
    }
  }

  /** The attribute is set exactly when the first paragraph's text opens with
      a marker, and the content is replaced exactly then too (lines 82-90,
      104, 153). */
  lemma RewriteMarksIffMatch(ps: seq<Paragraph>)
    ensures var r := Rewrite(BlockState(None, Paragraphs(ps)));
            && (r.callout.Some? <==> ps != [] && MatchMarker(ps[0].text).Some?)
            && (r.callout.None? ==> r.content == Paragraphs(ps))
            && (r.callout.Some? ==> r.content.Html?)
  {
  }

  /** What a quote whose first paragraph opens with optional whitespace, `[!`,
      a tag and `]` turns into: the tag is lowercased before every lookup,
      and the title and the body follow from what comes after the `]`. */
  lemma MarkedBlock(lead: string, tag: string, tail: string, html: string, rest: seq<Paragraph>)
    requires AllWs(lead) && IsTag(tag)
    ensures var t := Lower(tag);
            Analyze([Paragraph(lead + "[!" + tag + "]" + tail, html)] + rest)
            == Some(Callout(Category(t), Icon(t), DisplayTitle(TitleCapture(tail), t), BodyParts(html, rest)))
  {
    var ps := [Paragraph(lead + "[!" + tag + "]" + tail, html)] + rest;
    MatchShape(lead, tag, tail);
    assert ps[1..] == rest;
  }

  /** The tag is case-insensitive: two tags with the same lowercase form give
      the same category, icon, title and body (lines 89, 92). */
  lemma TagCaseInsensitive(lead: string, tag1: string, tag2: string, tail: string, html: string, rest: seq<Paragraph>)
    requires AllWs(lead) && IsTag(tag1) && IsTag(tag2) && Lower(tag1) == Lower(tag2)
    ensures Analyze([Paragraph(lead + "[!" + tag1 + "]" + tail, html)] + rest)
         == Analyze([Paragraph(lead + "[!" + tag2 + "]" + tail, html)] + rest)
  {
    MarkedBlock(lead, tag1, tail, html, rest);
    MarkedBlock(lead, tag2, tail, html, rest);
  }

  /** `[!WARNING]` and `[!warning]` are one and the same marker. */
  lemma UpperAndLowerWarning(tail: string, html: string, rest: seq<Paragraph>)
    ensures Analyze([Paragraph("[!WARNING]" + tail, html)] + rest)
         == Analyze([Paragraph("[!warning]" + tail, html)] + rest)
  {
    assert Lower("WARNING") == "warning";
    assert "[!WARNING]" + tail == "" + "[!" + "WARNING" + "]" + tail;
    assert "[!warning]" + tail == "" + "[!" + "warning" + "]" + tail;
    TagCaseInsensitive("", "WARNING", "warning", tail, html, rest);
  }

  /** The attribute value is never an alias: an alias is resolved to its
      target and the target is not an alias itself (lines 56-70, 97, 104). */
  lemma MarkerIsNeverAlias(st: BlockState)
    ensures Rewrite(st).callout.Some? && st.callout.None? ==> Rewrite(st).callout.value !in Aliases
  {
    if Rewrite(st).callout.Some? && st.callout.None? {
      var tag := Lower(MatchMarker(st.content.ps[0].text).value.tag);
      CategoryNeverAlias(tag);
    }
  }

  /** The title: a custom title that is blank after trimming counts as none,
      and a quote always gets a title that is not empty (lines 94, 101). */
  lemma TitleNeverEmpty(ps: seq<Paragraph>)
    requires Analyze(ps).Some?
    ensures Analyze(ps).value.title != []
  {
  }

  // ---------------------------------------------------------------------
  // Worked examples

  /** A whitespace gap and a title with no whitespace at its ends make the
      title of the quote. */
  lemma TitleOf(gap: string, title: string, tag: string)
    requires gap != [] && AllWs(gap)
    requires title != [] && !IsWs(title[0]) && !IsWs(title[|title| - 1]) && NoLineTerminator(title)
    ensures DisplayTitle(TitleCapture(gap + title), tag) == title
  {
    assert gap + title == gap + title + "";
    TitledTail(gap, title, "");
    TrimAround("", title, "");
    assert "" + title + "" == title;
  }

  /** A first paragraph whose HTML holds nothing but the marker and its title
      gives no body part of its own: the later paragraphs are the whole body. */
  lemma MarkerLineOnly(tag: string, tail: string, rest: seq<Paragraph>)
    requires IsTag(tag) && NoBrStart("[!" + tag + "]" + tail)
    requires tail == [] || (IsWs(tail[0]) && NoLineTerminator(tail))
    ensures BodyParts("[!" + tag + "]" + tail, rest) == Htmls(rest)
  {
    var h := "[!" + tag + "]" + tail;
    SplitWithoutBr(h);
    StripMarkerLine(tag, tail);
    assert FirstLines(SplitBr(h).pieces) == [""];
    KeepNonBlankOne("");
  }

  /** `\s+` crosses the line break: the plain text `[!TAG]`, a newline and a
      line of text is titled with that line. */
  lemma TitleFromNextLine(tag: string, body: string, html: string, rest: seq<Paragraph>)
    requires IsTag(tag)
    requires body != [] && !IsWs(body[0]) && !IsWs(body[|body| - 1]) && NoLineTerminator(body)
    ensures var r := Analyze([Paragraph("[!" + tag + "]\n" + body, html)] + rest);
            r.Some? && r.value.title == body
  {
    assert "[!" + tag + "]\n" + body == "" + "[!" + tag + "]" + ("\n" + body);
    MarkedBlock("", tag, "\n" + body, html, rest);
    TitleOf("\n", body, Lower(tag));
  }

  /** Without whitespace right after `]` the text is no title: `[!note]Title`
      keeps the default title of the tag. */
  lemma GluedTitleIgnored(tag: string, word: string, html: string, rest: seq<Paragraph>)
    requires IsTag(tag) && (word == [] || !IsWs(word[0]))
    ensures var r := Analyze([Paragraph("[!" + tag + "]" + word, html)] + rest);
            r.Some? && r.value.title == DefaultTitle(Lower(tag))
  {
    assert "[!" + tag + "]" + word == "" + "[!" + tag + "]" + word;
    MarkedBlock("", tag, word, html, rest);
    UntitledTail(word);
  }

  /** The strip pattern is not anchored: it deletes the marker wherever it
      first occurs in the first HTML line, so markup around it survives as a
      body part. */
  lemma MarkupAroundMarkerSurvives(pre: string, tag: string, post: string, rest: seq<Paragraph>)
    requires pre != [] && !IsWs(pre[|pre| - 1]) && forall i :: 0 <= i < |pre| ==> pre[i] != '['
    requires IsTag(tag) && (post == [] || !IsWs(post[0]))
    requires NoBrStart(pre + "[!" + tag + "]" + post)
    ensures BodyParts(pre + "[!" + tag + "]" + post, rest) == [Trim(pre + post)] + Htmls(rest)
    ensures Trim(pre + post) != []
  {
    var h := pre + "[!" + tag + "]" + post;
    StripAroundMarker(pre, tag, post);
    SplitWithoutBr(h);
    assert FirstLines(SplitBr(h).pieces) == [pre + post];
    assert (pre + post)[|pre| - 1] == pre[|pre| - 1];
    KeepNonBlankOne(pre + post);
  }

  /** `[!warning] Careful`: the warning category and glyph, and the custom
      title. */
  lemma WarningWithTitle(html: string, rest: seq<Paragraph>)
    ensures Analyze([Paragraph("[!warning] Careful", html)] + rest)
         == Some(Callout("warning", "⚠️", "Careful", BodyParts(html, rest)))
  {
    assert "[!warning] Careful" == "" + "[!" + "warning" + "]" + " Careful";
    MarkedBlock("", "warning", " Careful", html, rest);
    WarningFields();
    WarningTitle();
  }

  /** `[!hint]` alone: the tip category and glyph and the default title `HINT`. */
  lemma BareHint(html: string, rest: seq<Paragraph>)
    ensures Analyze([Paragraph("[!hint]", html)] + rest) == Some(Callout("tip", "✅", "HINT", BodyParts(html, rest)))
  {
    assert "[!hint]" == "" + "[!" + "hint" + "]" + "";
    MarkedBlock("", "hint", "", html, rest);
    HintFields();
  }

  /** A quote holding only `[!hint]` becomes a `tip` callout with a title bar
      and no content box. */
  lemma BareHintAlone()
    ensures Rewrite(BlockState(None, Paragraphs([Paragraph("[!hint]", "[!hint]")])))
         == BlockState(Some("tip"), Html(TitleHtml("✅", "HINT")))
  {
    assert [Paragraph("[!hint]", "[!hint]")] == [Paragraph("[!hint]", "[!hint]")] + [];
    BareHint("[!hint]", []);
    HintParts();
  }

  /** An unknown tag keeps its own name as the category and takes the fallback
      glyph; its custom title is used as given. */
  lemma UnknownTagWithTitle(html: string, rest: seq<Paragraph>)
    ensures Analyze([Paragraph("[!unknowntype] My Title", html)] + rest)
         == Some(Callout("unknowntype", FallbackIcon, "My Title", BodyParts(html, rest)))
  {
    assert "[!unknowntype] My Title" == "" + "[!" + "unknowntype" + "]" + " My Title";
    MarkedBlock("", "unknowntype", " My Title", html, rest);
    UnknownLookups();
    UnknownTitle();
  }

  /** An unknown tag without a title is titled by its lowercased name with the
      first letter capitalised. */
  lemma UnknownTagDefaultTitle(html: string, rest: seq<Paragraph>)
    ensures Analyze([Paragraph("[!myType]", html)] + rest)
         == Some(Callout("mytype", FallbackIcon, "Mytype", BodyParts(html, rest)))
  {
    assert "[!myType]" == "" + "[!" + "myType" + "]" + "";
    MarkedBlock("", "myType", "", html, rest);
    MyTypeFields();
  }

  // Steps of the worked examples above, one literal fact each: they exist
  // only to split the solver's work, so that no single proof evaluates the
  // lookups, the title and the marker of a literal line all at once.

  lemma WarningFields()
    ensures Lower("warning") == "warning" && Category("warning") == "warning" && Icon("warning") == "⚠️"
  {}

  lemma WarningTitle()
    ensures DisplayTitle(TitleCapture(" Careful"), "warning") == "Careful"
  {
    TitleOf(" ", "Careful", "warning");
  }

  lemma HintFields()
    ensures Lower("hint") == "hint" && Category("hint") == "tip" && Icon("hint") == "✅"
    ensures DisplayTitle(TitleCapture(""), "hint") == "HINT"
  {
    UntitledTail("");
  }

  lemma HintParts()
    ensures BodyParts("[!hint]", []) == []
  {
    assert "[!hint]" == "[!" + "hint" + "]" + "";
    MarkerLineOnly("hint", "", []);
  }

  lemma UnknownLookups()
    ensures Lower("unknowntype") == "unknowntype" && Category("unknowntype") == "unknowntype" && Icon("unknowntype") == FallbackIcon
  {}

  lemma UnknownTitle()
    ensures DisplayTitle(TitleCapture(" My Title"), "unknowntype") == "My Title"
  {
    TitleOf(" ", "My Title", "unknowntype");
  }

  lemma MyTypeFields()
    ensures Lower("myType") == "mytype" && Category("mytype") == "mytype" && Icon("mytype") == FallbackIcon
    ensures DisplayTitle(TitleCapture(""), "mytype") == "Mytype"
  {
    MyTypeLower();
    MyTypeTitle();
  }

  lemma MyTypeLower()
    ensures Lower("myType") == "mytype"
  {}

  lemma MyTypeTitle()
    ensures DisplayTitle(TitleCapture(""), "mytype") == "Mytype"
  {
    UntitledTail("");
    assert UpperFirst("mytype") == "Mytype";
  }


  // ---------------------------------------------------------------------
  // The blockquote element and the rewriting pass

  /** A blockquote element: its `data-callout` attribute and its content. */
  class Block {
    var callout: Option<string>
    var content: Content

    function State(): BlockState
      reads this
    {
      BlockState(callout, content)
    }

    constructor (ps: seq<Paragraph>)
      ensures State() == BlockState(None, Paragraphs(ps))
    {
      callout := None;
      content := Paragraphs(ps);
    }

    /** The body of the `forEach` callback (lines 78-159), updating the
        element in place. */
    method ProcessBlock()
      requires Valid(State())
      modifies this
      ensures State() == Rewrite(old(State()))
      ensures Valid(State())
    {
      if callout.Some? {
        return;
      }
      var ps := content.ps;
      if |ps| == 0 {
        return;
      }
      var m := MatchMarker(ps[0].text);
      if m.None? {
        return;
      }
      var rawType := Lower(m.value.tag);
      var baseType := Category(rawType);
      var icon := Icon(rawType);
      var title := DisplayTitle(m.value.title, rawType);
      callout := Some(baseType);
      var parts := CollectBodyParts(ps[0].html, ps[1..]);
      var contentHtml := BuildContentHtml(parts);
      content := Html(TitleHtml(icon, title) + contentHtml);
      assert Analyze(ps) == Some(Callout(baseType, icon, title, parts));
    }
  }

  /** The kept lines of the first paragraph (lines 117-134): the first line
      with the marker deleted, then the later lines, each trimmed, blank ones
      dropped. */
  method FirstParagraphParts(htmlLines: seq<string>) returns (parts: seq<string>)
    requires htmlLines != []
    ensures parts == KeepNonBlank(FirstLines(htmlLines))
  {
    ghost var lines := FirstLines(htmlLines);
    parts := [];
    FirstLineKept(htmlLines);
    var firstLineText := Trim(StripFirstMarker(htmlLines[0]));
    if firstLineText != [] {
      parts := parts + [firstLineText];
    }
    assert parts == KeepNonBlank(lines[..1]);
    var i := 1;
    while i < |htmlLines|
      invariant 1 <= i <= |htmlLines| == |lines|
      invariant parts == KeepNonBlank(lines[..i])
    {
      LaterLine(htmlLines, i);
      KeepNonBlankSnoc(lines, i);
      var lineText := Trim(htmlLines[i]);
      if lineText != [] {
        parts := parts + [lineText];
      }
      assert parts == KeepNonBlank(lines[..i + 1]);
      i := i + 1;
    }
    assert lines[..i] == lines;
  }

  lemma FirstLineKept(htmlLines: seq<string>)
    requires htmlLines != []
    ensures |FirstLines(htmlLines)| == |htmlLines|
    ensures var line := Trim(StripFirstMarker(htmlLines[0]));
            KeepNonBlank(FirstLines(htmlLines)[..1]) == if line == [] then [] else [line]
  {
    var lines := FirstLines(htmlLines);
    assert lines[..1] == [lines[0]];
    KeepNonBlankOne(lines[0]);
  }

  lemma LaterLine(htmlLines: seq<string>, i: nat)
    requires 1 <= i < |htmlLines|
    ensures FirstLines(htmlLines)[i] == htmlLines[i]
  {
    assert FirstLines(htmlLines)[i] == FirstLines(htmlLines)[1..][i - 1];
  }

  /** `contentParts`, grown with `push` (lines 107-140). */
  method CollectBodyParts(firstHtml: string, others: seq<Paragraph>) returns (parts: seq<string>)
    ensures parts == BodyParts(firstHtml, others)
  {
    var htmlLines := SplitBr(firstHtml).pieces;
    parts := FirstParagraphParts(htmlLines);
    ghost var first := parts;
    var j := 0;
    while j < |others|
      invariant 0 <= j <= |others|
      invariant parts == first + Htmls(others[..j])
    {
      parts := parts + [others[j].html];
      HtmlsSnoc(others, j);
      j := j + 1;
    }
    assert others[..j] == others;
    BodyPartsOf(firstHtml, others);
  }

  lemma BodyPartsOf(firstHtml: string, others: seq<Paragraph>)
    ensures BodyParts(firstHtml, others) == KeepNonBlank(FirstLines(SplitBr(firstHtml).pieces)) + Htmls(others)
  {
  }

  /** `contentHTML`, built with `+=` (lines 143-150). */
  method BuildContentHtml(parts: seq<string>) returns (html: string)
    ensures html == ContentHtml(parts)
  {
    html := "";
    if |parts| > 0 {
      html := ContentOpen;
      var i := 0;
      while i < |parts|
        invariant 0 <= i <= |parts|
        invariant html == ContentOpen + ParagraphsHtml(parts[..i])
      {
        assert parts[..i + 1][..i] == parts[..i];
        html := html + "<p>" + parts[i] + "</p>";
        i := i + 1;
      }
      assert parts[..i] == parts;
      html := html + "</div>";
    }
  }

  /** The `forEach` over every blockquote of the article (line 78). */
  method ParseAll(blocks: array<Block>)
    requires forall i, j :: 0 <= i < j < blocks.Length ==> blocks[i] != blocks[j]
    requires forall i :: 0 <= i < blocks.Length ==> Valid(blocks[i].State())
    modifies set i | 0 <= i < blocks.Length :: blocks[i]
    ensures forall i :: 0 <= i < blocks.Length ==> blocks[i].State() == Rewrite(old(blocks[i].State()))
    ensures forall i :: 0 <= i < blocks.Length ==> Valid(blocks[i].State())
  {
    ghost var before := seq(blocks.Length, i reads blocks, set j | 0 <= j < blocks.Length :: blocks[j]
                              => if 0 <= i < blocks.Length then blocks[i].State() else BlockState(None, Html("")));
    var k := 0;
    while k < blocks.Length
      invariant 0 <= k <= blocks.Length
      invariant forall i :: 0 <= i < blocks.Length ==> before[i] == old(blocks[i].State()) && Valid(before[i])
      invariant forall i :: 0 <= i < k ==> blocks[i].State() == Rewrite(before[i])
      invariant forall i :: k <= i < blocks.Length ==> blocks[i].State() == before[i]
    {
      label L:
      blocks[k].ProcessBlock();
      assert blocks[k].State() == Rewrite(before[k]);
      assert forall i :: 0 <= i < blocks.Length && i != k ==> blocks[i].State() == old@L(blocks[i].State());
      k := k + 1;
    }
  }
}
