# Callout rewriter of the Butterfly theme, in Dafny

The Butterfly Hexo theme turns Obsidian-style callouts into styled boxes.
A callout is a blockquote whose first paragraph opens with `[!TAG]`, optionally followed by a title.
The browser script `themes/butterfly/source/js/callout-parser.js` does the rewriting. For every blockquote that is not marked yet, it:
- reads the tag;
- lowercases it;
- resolves three things from three constant tables:
  - a styling category, through aliases such as `hint` → `tip`;
  - an icon;
  - a default title;
- stores the category in the `data-callout` attribute;
- replaces the content of the quote with a title bar and a content box holding the body parts.

This project models that script and proves its properties:

- `Text` (text.dfy): the JavaScript whitespace set shared by `\s` and `trim`, the line terminators `.` stops at, `[\w-]`, ASCII case mapping, and `trim` with its laws.
- `Registry` (registry.dfy):
  - the `CALLOUT_ICONS`, `CALLOUT_TITLES` and `TYPE_ALIASES` tables;
  - the fallbacks of lines 97-101;
  - the lookups as written, which also see `Object.prototype` (see Findings).
- `Marker` (marker.dfy): a hand-written matcher for the two regular expressions.
  - Line 89 matches `^\s*\[!([\w-]+)\](?:\s+(.*))?` against the plain text, anchored, with its captures.
  - Line 121 deletes the leftmost `\s*\[![\w-]+\](?:\s+.*)?` from the first HTML line.
- `LineBreaks` (linebreaks.dfy): `split(/<br\s*\/?>/gi)` (line 117), with the round trip back to the input.
- `Rewriter` (rewriter.dfy):
  - the per-blockquote rewrite as a pure specification `Rewrite` on a `BlockState` (the attribute and the content);
  - a `Block` class whose `ProcessBlock` method updates the element in place and is proved equal to `Rewrite`;
  - the `push` loops (`FirstParagraphParts`, `CollectBodyParts`) and the `+=` loop (`BuildContentHtml`);
  - `ParseAll`, the `forEach` over an array of blocks.

A paragraph is a pair of its plain text (`textContent`) and its inner HTML, taken as independent inputs.
A blockquote's paragraphs are given as a sequence whose head is the paragraph `querySelector('p')` finds.

## Model

| member | source | states |
|---|---|---|
| Text.IsWs | themes/butterfly/source/js/callout-parser.js:89-94 | the `\s` / `trim` set of ECMAScript whitespace and line terminators; none of it is a `[\w-]` character, `[` or `]` |
| Text.IsLineTerminator | themes/butterfly/source/js/callout-parser.js:89 | the characters `.` stops at; each is also whitespace, so `\s+` runs across line breaks |
| Text.IsWordChar | themes/butterfly/source/js/callout-parser.js:89 | the class `[\w-]`: ASCII only, never `[` or `]` |
| Text.Lower | themes/butterfly/source/js/callout-parser.js:92 | `toLowerCase` on a tag: same length, each letter lowered, still a `[\w-]+` word |
| Text.UpperFirst | themes/butterfly/source/js/callout-parser.js:101 | first character upper-cased, the rest unchanged |
| Text.LeadingWs | themes/butterfly/source/js/callout-parser.js:89 | length of the greedy `\s*` run: all whitespace, and no whitespace right after it |
| Text.TrimStart | themes/butterfly/source/js/callout-parser.js:94 | what it drops from the front is all whitespace, and what is left does not start with whitespace |
| Text.TrimEnd | themes/butterfly/source/js/callout-parser.js:94 | what it drops from the end is all whitespace, and what is left does not end with whitespace |
| Text.Trim | themes/butterfly/source/js/callout-parser.js:94 | result is empty or starts and ends with non-whitespace; empty iff the input is all whitespace |
| Text.TrimAround | themes/butterfly/source/js/callout-parser.js:94 | trimming whitespace + text + whitespace gives back the text |
| Text.TrimIdempotent | themes/butterfly/source/js/callout-parser.js:121-131 | trimming a trimmed line changes nothing; KeepNonBlankIdempotent rests on it (lines 121 and 130-131 trim each line once) |
| Registry.Category | themes/butterfly/source/js/callout-parser.js:97 | an alias key resolves to its target, which differs from it; any other tag is its own category |
| Registry.Icon | themes/butterfly/source/js/callout-parser.js:100 | the table icon of a mapped tag, else the fallback glyph; never empty |
| Registry.DefaultTitle | themes/butterfly/source/js/callout-parser.js:101 | the table title of a mapped tag, else the tag with its first letter capitalised; never empty for a non-empty tag |
| Registry.AliasesAreOneStep | themes/butterfly/source/js/callout-parser.js:56-70 | no alias target is itself an alias key |
| Registry.AliasTargetsAreKnown | themes/butterfly/source/js/callout-parser.js:10-70 | every alias target has its own icon and title |
| Registry.AliasKeysAreKnown | themes/butterfly/source/js/callout-parser.js:10-70 | every alias key has an icon and a title; the icon and title tables have the same keys |
| Registry.CategoryIdempotent | themes/butterfly/source/js/callout-parser.js:97 | resolving a category twice equals resolving it once |
| Registry.CategoryNeverAlias | themes/butterfly/source/js/callout-parser.js:97 | a resolved category is never an alias key |
| Registry.InheritedProperty | themes/butterfly/source/js/callout-parser.js:97-101 | the only lowercase `[\w-]+` names an object literal inherits are `constructor` and `__proto__` |
| Registry.ObjectLookup | themes/butterfly/source/js/callout-parser.js:97-101 | an own key gives its value; any other key gives the inherited property, if any |
| Registry.CategoryAsWritten | themes/butterfly/source/js/callout-parser.js:97 | line 97 as written agrees with `Category` on every alias key |
| Registry.IconAsWritten | themes/butterfly/source/js/callout-parser.js:100 | line 100 as written agrees with `Icon` on every mapped tag |
| Registry.DefaultTitleAsWritten | themes/butterfly/source/js/callout-parser.js:101 | line 101 as written agrees with `DefaultTitle` on every mapped tag |
| Registry.ConstructorTagMisresolves | themes/butterfly/source/js/callout-parser.js:97-101 | `[!constructor]` gets the printed `Object` function, not the tag and its fallbacks, as category, icon and title |
| Registry.ProtoTagMisresolves | themes/butterfly/source/js/callout-parser.js:97-101 | `[!__proto__]` gets `[object Object]` as category, icon and title |
| Registry.AsWrittenAgreesElsewhere | themes/butterfly/source/js/callout-parser.js:97-101 | apart from those two names, the lookups as written equal the corrected ones |
| Marker.WordPrefix | themes/butterfly/source/js/callout-parser.js:89 | greedy `[\w-]+`: a prefix of word characters not followed by one |
| Marker.LinePrefix | themes/butterfly/source/js/callout-parser.js:89 | greedy `.*`: a prefix with no line terminator, ended by one or by the end |
| Marker.MatchHead | themes/butterfly/source/js/callout-parser.js:89 | a head match splits the text into `[!`, a tag, `]` and the tail |
| Marker.TitleCapture | themes/butterfly/source/js/callout-parser.js:89 | the title group takes part iff whitespace follows `]`; the capture has no line terminator and no leading whitespace |
| Marker.AfterTitle | themes/butterfly/source/js/callout-parser.js:121 | the whole tail when there is no title, else the rest from the line terminator ending the title |
| Marker.MatchAt | themes/butterfly/source/js/callout-parser.js:89 | a match captures a `[\w-]+` tag and consumes at least one character |
| Marker.MatchMarker | themes/butterfly/source/js/callout-parser.js:89 | the anchored match of line 89 captures a `[\w-]+` tag |
| Marker.StripFirstMarker | themes/butterfly/source/js/callout-parser.js:121 | the unanchored deletion never lengthens the line; StripLeftmost states which part goes |
| Marker.MatchShape | themes/butterfly/source/js/callout-parser.js:89 | whitespace + `[!` + tag + `]` + tail matches with that tag, the title and rest decided by the tail |
| Marker.MatchSound | themes/butterfly/source/js/callout-parser.js:89 | every match has exactly that shape: whitespace, `[!`, the captured tag, `]` |
| Marker.MatchHeadOf | themes/butterfly/source/js/callout-parser.js:89 | `[!` + tag + `]` is read back as that tag, whatever follows |
| Marker.TitledTail | themes/butterfly/source/js/callout-parser.js:89 | `\s+` crosses line breaks; the title is the rest of the line after the whitespace run |
| Marker.UntitledTail | themes/butterfly/source/js/callout-parser.js:89 | with no whitespace right after `]` there is no title and the tail is untouched |
| Marker.StripAfter | themes/butterfly/source/js/callout-parser.js:121 | with no `[` before it, the first marker and its title are deleted and everything else kept |
| Marker.StripLeftmost | themes/butterfly/source/js/callout-parser.js:121 | when the pattern first matches at position i, the line up to i is kept, the match is deleted and what follows it is kept, whatever precedes (a `[` that opens no marker included) |
| Marker.StripSkipsText | themes/butterfly/source/js/callout-parser.js:121 | a prefix with no `[` that does not end in whitespace is kept as is |
| Marker.StripWithoutMarker | themes/butterfly/source/js/callout-parser.js:121 | a line with no match anywhere is unchanged |
| Marker.StripMarkerAt | themes/butterfly/source/js/callout-parser.js:121 | a line starting with the marker loses the marker and its title |
| Marker.StripMarkerLine | themes/butterfly/source/js/callout-parser.js:121 | a line holding only the marker and its title becomes empty |
| Marker.StripAroundMarker | themes/butterfly/source/js/callout-parser.js:121 | markup before and glued after the marker survives the deletion |
| LineBreaks.BrAt | themes/butterfly/source/js/callout-parser.js:117 | the length of the `<br\s*\/?>` tag (any case) at the start, or 0 |
| LineBreaks.SplitBr | themes/butterfly/source/js/callout-parser.js:117 | one more piece than tags, and every tag is a line-break tag |
| LineBreaks.SplitJoin | themes/butterfly/source/js/callout-parser.js:117 | joining the pieces with the tags gives back the HTML |
| LineBreaks.PiecesHoldNoBr | themes/butterfly/source/js/callout-parser.js:117 | no piece contains a line-break tag |
| LineBreaks.BrTagRecognised | themes/butterfly/source/js/callout-parser.js:117 | every whole line-break tag is recognised whatever follows it |
| LineBreaks.SplitWithoutBr | themes/butterfly/source/js/callout-parser.js:117 | HTML with no `<br` start is a single piece |
| LineBreaks.SplitAtTag | themes/butterfly/source/js/callout-parser.js:117 | text with no `<`, a tag, and the rest split on its own |
| Rewriter.CustomTitle | themes/butterfly/source/js/callout-parser.js:94 | no title group gives `''`; otherwise the trimmed capture |
| Rewriter.DisplayTitle | themes/butterfly/source/js/callout-parser.js:101 | a non-blank custom title, else the table title, else the capitalised tag; never empty |
| Rewriter.KeepNonBlank | themes/butterfly/source/js/callout-parser.js:124-133 | keeps at most as many lines as given |
| Rewriter.KeptLinesTrimmed | themes/butterfly/source/js/callout-parser.js:124-133 | every kept line is non-empty and trimmed at both ends |
| Rewriter.KeepNonBlankAppend | themes/butterfly/source/js/callout-parser.js:129-133 | filtering distributes over concatenation: order is kept |
| Rewriter.KeepNonBlankOne | themes/butterfly/source/js/callout-parser.js:129-133 | one line is kept, trimmed, unless it is blank; with KeepNonBlankAppend this fixes KeepNonBlank on every list |
| Rewriter.KeepNonBlankIdempotent | themes/butterfly/source/js/callout-parser.js:129-133 | filtering kept lines again changes nothing |
| Rewriter.Htmls | themes/butterfly/source/js/callout-parser.js:137-140 | the later paragraphs' HTML, one per paragraph, verbatim |
| Rewriter.FirstLines | themes/butterfly/source/js/callout-parser.js:117-121 | as many lines as the split gave; only the first is touched (the marker deleted from it, so it never grows), every later line is kept as it is |
| Rewriter.BodyParts | themes/butterfly/source/js/callout-parser.js:107-140 | `contentParts`: at least one part per later paragraph, at most one per line of the split first paragraph plus one per later paragraph; BodyPartsOrder states which parts and in what order |
| Rewriter.BodyPartsOrder | themes/butterfly/source/js/callout-parser.js:107-140 | trimmed non-blank first-paragraph lines, then every later paragraph verbatim and unfiltered |
| Rewriter.Analyze | themes/butterfly/source/js/callout-parser.js:82-90 | a callout is found iff there is a first paragraph whose text matches line 89 |
| Rewriter.TitleHtml | themes/butterfly/source/js/callout-parser.js:154-157 | the title bar opens with the `callout-title` div |
| Rewriter.ParagraphsHtml | themes/butterfly/source/js/callout-parser.js:146-148 | empty iff there are no parts |
| Rewriter.ParagraphsHtmlCons | themes/butterfly/source/js/callout-parser.js:146-148 | each part becomes its own `<p>`, in order |
| Rewriter.ParagraphsHtmlAppend | themes/butterfly/source/js/callout-parser.js:146-148 | the paragraphs of two part lists are concatenated in order |
| Rewriter.ContentHtml | themes/butterfly/source/js/callout-parser.js:143-150 | the content box is present iff there is a part, and wraps the parts' paragraphs |
| Rewriter.Render | themes/butterfly/source/js/callout-parser.js:153-158 | the new content is the title bar, then the content box; just the title bar iff there are no parts |
| Rewriter.Rewrite | themes/butterfly/source/js/callout-parser.js:78-159 | a marked block is unchanged; a match marks it with the category and renders it; otherwise unchanged; validity preserved |
| Rewriter.RewriteIdempotent | themes/butterfly/source/js/callout-parser.js:80 | rewriting twice equals rewriting once |
| Rewriter.RewriteMarksIffMatch | themes/butterfly/source/js/callout-parser.js:82-104 | the attribute is set iff the first paragraph matches, and only then is the content replaced |
| Rewriter.MarkedBlock | themes/butterfly/source/js/callout-parser.js:89-101 | the callout from a marker: category, icon and title from the lowercased tag, title from the tail, the body parts |
| Rewriter.TagCaseInsensitive | themes/butterfly/source/js/callout-parser.js:89-92 | tags equal up to case give the same callout |
| Rewriter.UpperAndLowerWarning | themes/butterfly/source/js/callout-parser.js:89-92 | `[!WARNING]` and `[!warning]` give the same callout |
| Rewriter.MarkerIsNeverAlias | themes/butterfly/source/js/callout-parser.js:97-104 | the `data-callout` value set is never an alias key |
| Rewriter.TitleNeverEmpty | themes/butterfly/source/js/callout-parser.js:94-101 | a callout always has a non-empty title |
| Rewriter.TitleOf | themes/butterfly/source/js/callout-parser.js:89-101 | whitespace then a title without edge whitespace makes that title |
| Rewriter.MarkerLineOnly | themes/butterfly/source/js/callout-parser.js:117-140 | HTML of just the marker line gives no part; the later paragraphs are the whole body |
| Rewriter.TitleFromNextLine | themes/butterfly/source/js/callout-parser.js:89-94 | `[!TAG]`, a newline and a line of text is titled with that line |
| Rewriter.GluedTitleIgnored | themes/butterfly/source/js/callout-parser.js:89-101 | text glued to `]` is no title; the default title is used |
| Rewriter.MarkupAroundMarkerSurvives | themes/butterfly/source/js/callout-parser.js:121-126 | markup around the marker in the first HTML line survives as one trimmed part |
| Rewriter.WarningWithTitle | themes/butterfly/source/js/callout-parser.js:89-101 | `[!warning] Careful` gives category `warning`, ⚠️ and title `Careful` |
| Rewriter.BareHint | themes/butterfly/source/js/callout-parser.js:89-101 | `[!hint]` gives category `tip`, ✅ and title `HINT` |
| Rewriter.BareHintAlone | themes/butterfly/source/js/callout-parser.js:78-158 | a quote holding only `[!hint]` becomes a `tip` callout with a title bar and no content box |
| Rewriter.UnknownTagWithTitle | themes/butterfly/source/js/callout-parser.js:97-101 | an unknown tag is its own category with the fallback icon and its custom title |
| Rewriter.UnknownTagDefaultTitle | themes/butterfly/source/js/callout-parser.js:92-101 | `[!myType]` gives category `mytype` and title `Mytype` |
| Rewriter.Block.constructor | themes/butterfly/source/js/callout-parser.js:78 | a fresh, unmarked blockquote holding the given paragraphs |
| Rewriter.Block.ProcessBlock | themes/butterfly/source/js/callout-parser.js:78-159 | the element's new attribute and content are exactly `Rewrite` of the old ones, and stay valid |
| Rewriter.FirstParagraphParts | themes/butterfly/source/js/callout-parser.js:117-134 | the `push` loop over the `<br>` lines yields the trimmed non-blank lines, marker deleted |
| Rewriter.CollectBodyParts | themes/butterfly/source/js/callout-parser.js:107-140 | `contentParts` equals the body parts: first-paragraph lines, then the later paragraphs |
| Rewriter.BuildContentHtml | themes/butterfly/source/js/callout-parser.js:143-150 | the `+=` loop builds exactly the content box |
| Rewriter.ParseAll | themes/butterfly/source/js/callout-parser.js:78 | every blockquote of the array is rewritten once, independently of the others |

## Left out

- DOM lookup is not modelled: `getElementById`, `querySelectorAll('blockquote')`, `querySelector('p')` and `p:not(:first-child)` (lines 73-76, 82, 137). A blockquote is a given sequence of paragraphs whose first is the first child. Nested paragraphs and a first `<p>` that is not the first child depend on the browser's selector engine.
- Nested blockquotes are not modelled. `ParseAll` takes distinct, independent blocks. A blockquote inside another one is detached when the outer `innerHTML` is replaced, and what the browser then does with it is outside the model.
- Deriving `textContent` from `innerHTML` (line 86) is browser HTML parsing. Each paragraph carries both strings as independent inputs.
- Event wiring and start-up are lifecycle code with no logic: `init`, `DOMContentLoaded`, `pjax:complete`, `InstantClick` (lines 162-180).
- HTML escaping: the source does none, and the model concatenates strings exactly as the source does.
- JavaScript strings are UTF-16 code units; the model uses Unicode scalar values. Every character class involved lies in the Basic Multilingual Plane and a tag is ASCII, so only unpaired surrogates cannot be written in the model.
- Rewriter.Analyze: its contract states only when a callout is found. The fields of the found callout are stated by Rewriter.MarkedBlock, for every text of the matching shape, which Marker.MatchSound shows is every match.

## Findings

| source | as written | input that shows it | evidently intended | confidence | as-written member | corrected member |
|---|---|---|---|---|---|---|
| themes/butterfly/source/js/callout-parser.js:97-101 | `TABLE[rawType] \|\| fallback` on plain object literals also finds properties inherited from `Object.prototype` | a quote whose first paragraph is `[!constructor]` (or `[!__proto__]`): the category, icon and title become the printed `Object` function (`function Object() { [native code] }` in V8 and JavaScriptCore; SpiderMonkey prints it over several lines) or `[object Object]` | only the tables' own keys are looked up, so the tag falls back to itself, `📝` and `Constructor` | not executed | Registry.ConstructorTagMisresolves | Registry.Category |
