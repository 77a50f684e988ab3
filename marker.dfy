/** The callout marker grammar of themes/butterfly/source/js/callout-parser.js.
    One pattern is used twice: anchored, with its captures, on the first
    paragraph's plain text (line 89, `^\s*\[!([\w-]+)\](?:\s+(.*))?`), and
    unanchored, to delete the first occurrence from the first HTML line of that
    paragraph (line 121, `\s*\[![\w-]+\](?:\s+.*)?`). Both carry the `i` flag,
    which changes nothing here: `[\w-]` already holds both cases of every
    letter it can match. */
module Marker {
  import opened Options
  import opened Text

  /** `[!`, the `([\w-]+)` capture and `]`, and what follows them. */
  datatype Head = Head(tag: string, tail: string)

  /** A successful match at the start of a string: the `([\w-]+)` capture, the
      `(.*)` capture when the optional title group took part, and the part of
      the string after the whole match. */
  datatype Match = Match(tag: string, title: Option<string>, rest: string)

  /** The longest prefix of word characters (the greedy `[\w-]+`). */
  function WordPrefix(s: string): (r: string)
    ensures |r| <= |s| && r == s[..|r|]
    ensures forall i :: 0 <= i < |r| ==> IsWordChar(r[i])
    ensures |r| == |s| || !IsWordChar(s[|r|])
  {
    if s != [] && IsWordChar(s[0]) then [s[0]] + WordPrefix(s[1..]) else []
  }

  /** The longest prefix without a line terminator (the greedy `.*`). */
  function LinePrefix(s: string): (r: string)
    ensures |r| <= |s| && r == s[..|r|]
    ensures NoLineTerminator(r)
    ensures |r| == |s| || IsLineTerminator(s[|r|])
  {
    if s != [] && !IsLineTerminator(s[0]) then [s[0]] + LinePrefix(s[1..]) else []
  }

  /** `\[!([\w-]+)\]` at the very start of `x`. */
  function MatchHead(x: string): (r: Option<Head>)
    ensures r.Some? ==> IsTag(r.value.tag) && x == "[!" + r.value.tag + "]" + r.value.tail
  {
    if |x| >= 2 && x[0] == '[' && x[1] == '!' then
      var tag := WordPrefix(x[2..]);
      var after := x[2 + |tag|..];
      if tag != [] && after != [] && after[0] == ']' then
        assert x == "[!" + tag + "]" + after[1..] by {
          assert x[2..2 + |tag|] == tag;
        }
        Some(Head(tag, after[1..]))
      else None
    else None
  }

  /** `(?:\s+(.*))?` at the start of what follows the closing `]`: the group
      takes part only when a whitespace character follows; then `\s+` takes the
      whole whitespace run, line terminators included, and `(.*)` the rest of
      the line after it. */
  function TitleCapture(tail: string): (r: Option<string>)
    ensures r.Some? <==> tail != [] && IsWs(tail[0])
    ensures r.Some? ==> NoLineTerminator(r.value) && (r.value == [] || !IsWs(r.value[0]))
  {
    if tail != [] && IsWs(tail[0]) then Some(LinePrefix(tail[LeadingWs(tail)..])) else None
  }

  /** What the optional title group leaves of `tail`: the rest from the line
      terminator that ends the title on, or all of `tail` when the group does
      not take part. */
  function AfterTitle(tail: string): (r: string)
    ensures |r| <= |tail|
    ensures TitleCapture(tail).None? ==> r == tail
    ensures TitleCapture(tail).Some? ==> r == [] || IsLineTerminator(r[0])
  {
    if tail != [] && IsWs(tail[0]) then
      var u := tail[LeadingWs(tail)..];
      u[|LinePrefix(u)|..]
    else tail
  }

  /** The pattern anchored at the start of `s`. */
  function MatchAt(s: string): (r: Option<Match>)
    ensures r.Some? ==> IsTag(r.value.tag) && |r.value.rest| < |s|
  {
    match MatchHead(s[LeadingWs(s)..])
    case None => None
    case Some(h) => Some(Match(h.tag, TitleCapture(h.tail), AfterTitle(h.tail)))
  }

  /** `text.match(/^\s*\[!([\w-]+)\](?:\s+(.*))?/i)` (line 89). */
  function MatchMarker(text: string): (r: Option<Match>)
    ensures r.Some? ==> IsTag(r.value.tag)
  {
    MatchAt(text)
  }

  /** `line.replace(/\s*\[![\w-]+\](?:\s+.*)?/i, '')` (line 121): the leftmost
      match, if any, is deleted and everything else kept. */
  function StripFirstMarker(line: string): (r: string)
    ensures |r| <= |line|
  {
    if line == [] then []
    else match MatchAt(line)
      case Some(m) => m.rest
      case None => [line[0]] + StripFirstMarker(line[1..])
  }

  lemma {:induction false} WordPrefixOfTag(tag: string, rest: string)
    requires forall i :: 0 <= i < |tag| ==> IsWordChar(tag[i])
    requires rest == [] || !IsWordChar(rest[0])
    ensures WordPrefix(tag + rest) == tag
  {
    var r := WordPrefix(tag + rest);
    assert r == (tag + rest)[..|tag|];
  }

  lemma {:induction false} LinePrefixOfLine(line: string, rest: string)
    requires NoLineTerminator(line)
    requires rest == [] || IsLineTerminator(rest[0])
    ensures LinePrefix(line + rest) == line
  {
    var r := LinePrefix(line + rest);
    assert r == (line + rest)[..|line|];
  }

  /** `[!`, a tag and `]` are read back as that tag, whatever follows. */
  lemma {:induction false} MatchHeadOf(tag: string, tail: string)
    requires IsTag(tag)
    ensures MatchHead("[!" + tag + "]" + tail) == Some(Head(tag, tail))
  {
    var x := "[!" + tag + "]" + tail;
    assert x[2..] == tag + ("]" + tail);
    WordPrefixOfTag(tag, "]" + tail);
    assert x[2 + |tag|..] == "]" + tail;
    assert x[2 + |tag|..][1..] == tail;
  }

  /** The grammar read forwards: whitespace, `[!`, a tag, `]` and any tail is a
      match whose tag capture is exactly that tag and whose title and
      remainder are decided by the tail alone. */
  lemma {:induction false} MatchShape(lead: string, tag: string, tail: string)
    requires AllWs(lead) && IsTag(tag)
    ensures MatchAt(lead + "[!" + tag + "]" + tail) == Some(Match(tag, TitleCapture(tail), AfterTitle(tail)))
  {
    var x := "[!" + tag + "]" + tail;
    assert lead + "[!" + tag + "]" + tail == lead + x;
    LeadingWsAround(lead, x);
    assert (lead + x)[|lead|..] == x;
    MatchHeadOf(tag, tail);
  }

  /** The grammar read backwards: a match consists of leading whitespace,
      `[!`, the captured tag and `]`, and its title and remainder are what the
      tail after that `]` decides. */
  lemma MatchSound(s: string)
    requires MatchAt(s).Some?
    ensures var m := MatchAt(s).value;
            var n := LeadingWs(s);
            && AllWs(s[..n])
            && s[n..] == "[!" + m.tag + "]" + s[n + |m.tag| + 3..]
            && m.title == TitleCapture(s[n + |m.tag| + 3..])
            && m.rest == AfterTitle(s[n + |m.tag| + 3..])
  {
    var n := LeadingWs(s);
    MatchAtHead(s);
    HeadAt(s, n, MatchHead(s[n..]).value);
  }

  lemma MatchAtHead(s: string)
    requires MatchAt(s).Some?
    ensures var h := MatchHead(s[LeadingWs(s)..]);
            h.Some? && MatchAt(s).value == Match(h.value.tag, TitleCapture(h.value.tail), AfterTitle(h.value.tail))
  {
  }

  lemma HeadAt(s: string, n: nat, h: Head)
    requires n <= |s| && MatchHead(s[n..]) == Some(h)
    ensures s[n + |h.tag| + 3..] == h.tail
    ensures s[n..] == "[!" + h.tag + "]" + s[n + |h.tag| + 3..]
  {
    assert s[n..][|h.tag| + 3..] == h.tail;
  }

  /** A title group that takes part captures the rest of the line after the
      whitespace run (`[!NOTE]\nBody` captures `Body`: `\s+` crosses the line
      break), and leaves the tail from the next line terminator on. */
  lemma {:induction false} TitledTail(gap: string, title: string, after: string)
    requires gap != [] && AllWs(gap)
    requires title == [] || !IsWs(title[0])
    requires NoLineTerminator(title)
    requires after == [] || IsLineTerminator(after[0])
    requires after != [] ==> title != []
    ensures TitleCapture(gap + title + after) == Some(title)
    ensures AfterTitle(gap + title + after) == after
  {
    var tail := gap + title + after;
    assert tail[0] == gap[0];
    assert tail == gap + (title + after);
    assert title + after == [] || !IsWs((title + after)[0]);
    LeadingWsAround(gap, title + after);
    assert tail[|gap|..] == title + after;
    LinePrefixOfLine(title, after);
    assert (title + after)[|title|..] == after;
  }

  /** Without whitespace right after `]` there is no title (`[!note]Title`
      keeps the default title) and the whole tail is left. */
  lemma UntitledTail(tail: string)
    requires tail == [] || !IsWs(tail[0])
    ensures TitleCapture(tail) == None
    ensures AfterTitle(tail) == tail
  {
  }

  /** Deleting the leftmost match: when the line holds no `[` before the marker
      and the whitespace run in front of the marker, the marker, its title and
      that whitespace go and everything else stays, markup around the marker
      included. */
  lemma StripAfter(pre: string, lead: string, tag: string, tail: string)
    requires forall i :: 0 <= i < |pre| ==> pre[i] != '['
    requires pre == [] || !IsWs(pre[|pre| - 1])
    requires AllWs(lead) && IsTag(tag)
    ensures StripFirstMarker(pre + (lead + "[!" + tag + "]" + tail)) == pre + AfterTitle(tail)
  {
    var x := lead + "[!" + tag + "]" + tail;
    MatchShape(lead, tag, tail);
    StripHere(x);
    StripSkipsText(pre, x);
  }

  /** No match starts inside a prefix that holds no `[` and does not end in
      whitespace: such a prefix is kept and the search goes on after it. */
  lemma {:induction false} StripSkipsText(pre: string, x: string)
    requires forall i :: 0 <= i < |pre| ==> pre[i] != '['
    requires pre == [] || !IsWs(pre[|pre| - 1])
    ensures StripFirstMarker(pre + x) == pre + StripFirstMarker(x)
    decreases |pre|
  {
    if pre == [] {
      assert pre + x == x;
    } else {
      StripPastText(pre, x);
      TextTail(pre);
      StripSkipsText(pre[1..], x);
      SeqCons(pre, StripFirstMarker(x));
    }
  }

  lemma TextTail(pre: string)
    requires forall i :: 0 <= i < |pre| ==> pre[i] != '['
    requires pre != [] && !IsWs(pre[|pre| - 1])
    ensures forall i :: 0 <= i < |pre[1..]| ==> pre[1..][i] != '['
    ensures pre[1..] == [] || !IsWs(pre[1..][|pre[1..]| - 1])
  {
  }

  lemma StripHere(line: string)
    requires MatchAt(line).Some?
    ensures StripFirstMarker(line) == MatchAt(line).value.rest
  {
  }

  lemma StripPastText(pre: string, x: string)
    requires forall i :: 0 <= i < |pre| ==> pre[i] != '['
    requires pre != [] && !IsWs(pre[|pre| - 1])
    ensures StripFirstMarker(pre + x) == [pre[0]] + StripFirstMarker(pre[1..] + x)
  {
    assert pre + x == [pre[0]] + (pre[1..] + x);
    NoMatchBeforeBracket(pre, x);
    StripCons(pre[0], pre[1..] + x);
  }

  lemma SeqCons(a: string, b: string)
    requires a != []
    ensures [a[0]] + (a[1..] + b) == a + b
  {
    assert a == [a[0]] + a[1..];
  }

  lemma StripCons(c: char, line: string)
    requires MatchAt([c] + line).None?
    ensures StripFirstMarker([c] + line) == [c] + StripFirstMarker(line)
  {
    assert ([c] + line)[1..] == line;
  }

  /** The pattern cannot match where the first character that is not
      whitespace is not a `[`. */
  lemma NoMatchBeforeBracket(pre: string, x: string)
    requires forall i :: 0 <= i < |pre| ==> pre[i] != '['
    requires pre != [] && !IsWs(pre[|pre| - 1])
    ensures MatchAt(pre + x).None?
  {
    assert !AllWs(pre);
    LeadingWsAppend(pre, x);
    assert (pre + x)[LeadingWs(pre)] == pre[LeadingWs(pre)];
  }

  lemma {:induction false} LeadingWsAppend(a: string, b: string)
    requires !AllWs(a)
    ensures LeadingWs(a + b) == LeadingWs(a)
  {
    if IsWs(a[0]) {
      assert (a + b)[1..] == a[1..] + b;
      assert !AllWs(a[1..]) by {
        var i :| 0 <= i < |a| && !IsWs(a[i]);
        assert a[1..][i - 1] == a[i];
      }
      LeadingWsAppend(a[1..], b);
    }
  }

  /** No match of the pattern starts before position `i` of `line`. */
  predicate NoMatchBefore(line: string, i: nat)
    requires i <= |line|
  {
    forall j :: 0 <= j < i ==> MatchAt(line[j..]).None?
  }

  /** `replace` deletes the leftmost match, wherever it starts: when the
      pattern first matches at position `i`, everything before `i` is kept,
      the match goes and the rest after it is kept (`[x] [!a] T` keeps `[x]`,
      whose `[` opens no marker, and loses ` [!a] T`). */
  lemma {:induction false} StripLeftmost(line: string, i: nat)
    requires i <= |line| && MatchAt(line[i..]).Some?
    requires NoMatchBefore(line, i)
    ensures StripFirstMarker(line) == line[..i] + MatchAt(line[i..]).value.rest
    decreases i
  {
    if i == 0 {
      assert line[0..] == line;
      StripHere(line);
    } else {
      StripLeftmostStep(line, i);
      StripLeftmost(line[1..], i - 1);
      StripNoMatchHere(line, i);
      SeqCons(line[..i], MatchAt(line[i..]).value.rest);
    }
  }

  /** Moving one character on keeps the leftmost match where it was. */
  lemma StripLeftmostStep(line: string, i: nat)
    requires 0 < i <= |line|
    requires NoMatchBefore(line, i)
    ensures line[1..][i - 1..] == line[i..]
    ensures NoMatchBefore(line[1..], i - 1)
  {
    forall j | 0 <= j < i - 1
      ensures MatchAt(line[1..][j..]).None?
    {
      assert line[1..][j..] == line[j + 1..];
    }
  }

  /** No match at the start: the first character is kept. */
  lemma StripNoMatchHere(line: string, i: nat)
    requires 0 < i <= |line|
    requires NoMatchBefore(line, i)
    ensures StripFirstMarker(line) == [line[0]] + StripFirstMarker(line[1..])
    ensures line[..i][1..] == line[1..][..i - 1]
  {
    NoMatchAtStart(line, i);
    StripUnmatched(line);
  }

  lemma NoMatchAtStart(line: string, i: nat)
    requires 0 < i <= |line|
    requires NoMatchBefore(line, i)
    ensures MatchAt(line).None?
  {
    assert line[0..] == line;
  }

  lemma StripUnmatched(line: string)
    requires line != [] && MatchAt(line).None?
    ensures StripFirstMarker(line) == [line[0]] + StripFirstMarker(line[1..])
  {
  }

  /** A line in which the pattern matches nowhere is left as it is. */
  lemma {:induction false} StripWithoutMarker(line: string)
    requires forall i :: 0 <= i <= |line| ==> MatchAt(line[i..]).None?
    ensures StripFirstMarker(line) == line
    decreases |line|
  {
    if line != [] {
      assert line[0..] == line;
      forall i | 0 <= i <= |line[1..]|
        ensures MatchAt(line[1..][i..]).None?
      {
        assert line[1..][i..] == line[i + 1..];
      }
      StripWithoutMarker(line[1..]);
    }
  }

  /** A tail that is blank up to its end (with no line break after the first
      whitespace character) leaves nothing once the title is taken out. */
  lemma BlankAfterTitle(tail: string)
    requires tail == [] || (IsWs(tail[0]) && NoLineTerminator(tail))
    ensures AfterTitle(tail) == ""
  {
    if tail == [] {
      UntitledTail(tail);
    } else {
      var n := LeadingWs(tail);
      assert tail == tail[..n] + tail[n..] + "";
      TitledTail(tail[..n], tail[n..], "");
    }
  }

  /** A line that opens with the marker loses the marker and its title. */
  lemma StripMarkerAt(tag: string, tail: string)
    requires IsTag(tag)
    ensures StripFirstMarker("[!" + tag + "]" + tail) == AfterTitle(tail)
  {
    MatchShape("", tag, tail);
    assert "" + "[!" + tag + "]" + tail == "[!" + tag + "]" + tail;
    StripHere("[!" + tag + "]" + tail);
  }

  /** A line holding only the marker and its title is deleted entirely. */
  lemma StripMarkerLine(tag: string, tail: string)
    requires IsTag(tag)
    requires tail == [] || (IsWs(tail[0]) && NoLineTerminator(tail))
    ensures StripFirstMarker("[!" + tag + "]" + tail) == ""
  {
    StripMarkerAt(tag, tail);
    BlankAfterTitle(tail);
  }

  /** The marker is cut out of the markup around it: the text before it and
      the text glued after it stay, in place. */
  lemma StripAroundMarker(pre: string, tag: string, post: string)
    requires forall i :: 0 <= i < |pre| ==> pre[i] != '['
    requires pre == [] || !IsWs(pre[|pre| - 1])
    requires IsTag(tag) && (post == [] || !IsWs(post[0]))
    ensures StripFirstMarker(pre + "[!" + tag + "]" + post) == pre + post
  {
    var x := "[!" + tag + "]" + post;
    assert pre + "[!" + tag + "]" + post == pre + x;
    StripSkipsText(pre, x);
    StripMarkerAt(tag, post);
    UntitledTail(post);
  }
}
