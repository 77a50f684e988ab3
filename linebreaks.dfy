/** `html.split(/<br\s*\/?>/gi)` of themes/butterfly/source/js/callout-parser.js
    (line 117): the first paragraph's inner HTML cut at every line-break tag,
    `<br>`, `<br/>` and `<br />` in any letter case, with any whitespace run
    before the optional slash. */
module LineBreaks {
  import opened Text

  /** The pieces between the line-break tags and the tags themselves, in
      order: `pieces[0] + tags[0] + pieces[1] + ... + pieces[|tags|]`. */
  datatype Split = Split(pieces: seq<string>, tags: seq<string>)

  /** A whole line-break tag: `<`, `b` or `B`, `r` or `R`, whitespace, an
      optional `/` and `>`. */
  predicate IsBrTag(t: string) {
    && |t| >= 4 && t[0] == '<' && (t[1] == 'b' || t[1] == 'B') && (t[2] == 'r' || t[2] == 'R')
    && t[|t| - 1] == '>'
    && (AllWs(t[3..|t| - 1]) || (t[|t| - 2] == '/' && AllWs(t[3..|t| - 2])))
  }

  /** The length of the line-break tag at the start of `s`, or 0 when none
      starts there. The whitespace run is greedy, and neither `/` nor `>` is
      whitespace, so the pattern never needs to backtrack. */
  function BrAt(s: string): (n: nat)
    ensures n == 0 || (n <= |s| && IsBrTag(s[..n]))
  {
    if |s| >= 3 && s[0] == '<' && (s[1] == 'b' || s[1] == 'B') && (s[2] == 'r' || s[2] == 'R') then
      var k := 3 + LeadingWs(s[3..]);
      assert s[3..k] == s[3..][..k - 3];
      if k < |s| && s[k] == '>' then
        assert s[..k + 1][3..k] == s[3..k];
        k + 1
      else if k + 1 < |s| && s[k] == '/' && s[k + 1] == '>' then
        assert s[..k + 2][3..k] == s[3..k];
        k + 2
      else 0
    else 0
  }

  /** The split, from left to right: a tag closes the current piece, any other
      character extends it. */
  function SplitBr(s: string): (r: Split)
    ensures |r.pieces| == |r.tags| + 1
    ensures forall i :: 0 <= i < |r.tags| ==> IsBrTag(r.tags[i])
    decreases |s|
  {
    if s == [] then Split([""], [])
    else
      var n := BrAt(s);
      if n > 0 then
        var t := SplitBr(s[n..]);
        Split([""] + t.pieces, [s[..n]] + t.tags)
      else
        var t := SplitBr(s[1..]);
        Split([[s[0]] + t.pieces[0]] + t.pieces[1..], t.tags)
  }

  /** The pieces glued back together with the tags between them. */
  function Join(pieces: seq<string>, tags: seq<string>): (r: string)
    requires |pieces| == |tags| + 1
    ensures |r| >= |pieces[0]| && r[..|pieces[0]|] == pieces[0]
    decreases |tags|
  {
    if tags == [] then pieces[0]
    else pieces[0] + tags[0] + Join(pieces[1..], tags[1..])
  }

  /** Every whole tag is recognised where it starts, whatever follows it. */
  lemma BrTagRecognised(t: string, rest: string)
    requires IsBrTag(t)
    ensures BrAt(t + rest) == |t|
  {
    var s := t + rest;
    var m := if AllWs(t[3..|t| - 1]) then |t| - 1 else |t| - 2;
    assert AllWs(t[3..m]);
    assert s[3..] == t[3..m] + s[m..];
    LeadingWsAround(t[3..m], s[m..]);
  }

  /** A tag found at the start of a string is found however the string goes
      on. */
  lemma BrAtExtend(s: string, rest: string)
    requires BrAt(s) > 0
    ensures BrAt(s + rest) == BrAt(s)
  {
    var n := BrAt(s);
    assert s[..n] + (s[n..] + rest) == s + rest;
    BrTagRecognised(s[..n], s[n..] + rest);
  }

  /** Splitting and joining again gives back the original HTML. */
  lemma {:induction false} SplitJoin(s: string)
    ensures Join(SplitBr(s).pieces, SplitBr(s).tags) == s
    decreases |s|
  {
    if s != [] {
      if BrAt(s) > 0 {
        SplitJoin(s[BrAt(s)..]);
        JoinAfterTag(s);
      } else {
        SplitJoin(s[1..]);
        JoinAfterChar(s);
      }
    }
  }

  lemma JoinAfterTag(s: string)
    requires s != [] && BrAt(s) > 0
    requires Join(SplitBr(s[BrAt(s)..]).pieces, SplitBr(s[BrAt(s)..]).tags) == s[BrAt(s)..]
    ensures Join(SplitBr(s).pieces, SplitBr(s).tags) == s
  {
    var n := BrAt(s);
    var t := SplitBr(s[n..]);
    assert SplitBr(s).pieces == [""] + t.pieces;
    assert SplitBr(s).tags == [s[..n]] + t.tags;
    JoinCons("", s[..n], t.pieces, t.tags);
    assert "" + s[..n] == s[..n];
    assert s[..n] + s[n..] == s;
  }

  lemma JoinAfterChar(s: string)
    requires s != [] && BrAt(s) == 0
    requires Join(SplitBr(s[1..]).pieces, SplitBr(s[1..]).tags) == s[1..]
    ensures Join(SplitBr(s).pieces, SplitBr(s).tags) == s
  {
    var t := SplitBr(s[1..]);
    assert SplitBr(s).pieces == [[s[0]] + t.pieces[0]] + t.pieces[1..];
    assert SplitBr(s).tags == t.tags;
    JoinExtendFirst(s[0], t.pieces, t.tags);
    assert [s[0]] + s[1..] == s;
  }

  lemma JoinCons(p: string, t: string, pieces: seq<string>, tags: seq<string>)
    requires |pieces| == |tags| + 1
    ensures Join([p] + pieces, [t] + tags) == p + t + Join(pieces, tags)
  {
    assert ([p] + pieces)[1..] == pieces;
    assert ([t] + tags)[1..] == tags;
  }

  lemma JoinExtendFirst(c: char, pieces: seq<string>, tags: seq<string>)
    requires |pieces| == |tags| + 1
    ensures Join([[c] + pieces[0]] + pieces[1..], tags) == [c] + Join(pieces, tags)
  {
    var p := [[c] + pieces[0]] + pieces[1..];
    assert p[1..] == pieces[1..];
  }

  /** No line-break tag starts anywhere in `p`. */
  predicate NoBrIn(p: string) {
    forall j :: 0 <= j <= |p| ==> BrAt(p[j..]) == 0
  }

  /** No piece holds a line-break tag: every tag in the input was cut out. */
  lemma {:induction false} PiecesHoldNoBr(s: string)
    ensures forall i :: 0 <= i < |SplitBr(s).pieces| ==> NoBrIn(SplitBr(s).pieces[i])
    decreases |s|
  {
    if s != [] {
      if BrAt(s) > 0 {
        PiecesHoldNoBr(s[BrAt(s)..]);
        PiecesAfterTag(s);
      } else {
        PiecesHoldNoBr(s[1..]);
        PiecesAfterChar(s);
      }
    }
  }

  lemma PiecesAfterTag(s: string)
    requires s != [] && BrAt(s) > 0
    requires forall i :: 0 <= i < |SplitBr(s[BrAt(s)..]).pieces| ==> NoBrIn(SplitBr(s[BrAt(s)..]).pieces[i])
    ensures forall i :: 0 <= i < |SplitBr(s).pieces| ==> NoBrIn(SplitBr(s).pieces[i])
  {
    var t := SplitBr(s[BrAt(s)..]);
    assert SplitBr(s).pieces == [""] + t.pieces;
    assert NoBrIn("") by {
      assert forall j :: 0 <= j <= 0 ==> ""[j..] == "";
    }
    NoBrCons("", t.pieces);
  }

  lemma PiecesAfterChar(s: string)
    requires s != [] && BrAt(s) == 0
    requires forall i :: 0 <= i < |SplitBr(s[1..]).pieces| ==> NoBrIn(SplitBr(s[1..]).pieces[i])
    ensures forall i :: 0 <= i < |SplitBr(s).pieces| ==> NoBrIn(SplitBr(s).pieces[i])
  {
    var t := SplitBr(s[1..]);
    assert SplitBr(s).pieces == [[s[0]] + t.pieces[0]] + t.pieces[1..];
    ExtendedPieceHoldsNoBr(s);
    NoBrCons([s[0]] + t.pieces[0], t.pieces[1..]);
  }

  lemma NoBrCons(x: string, p: seq<string>)
    requires NoBrIn(x)
    requires forall i :: 0 <= i < |p| ==> NoBrIn(p[i])
    ensures forall i :: 0 <= i < |[x] + p| ==> NoBrIn(([x] + p)[i])
  {
    assert forall i :: 1 <= i < |[x] + p| ==> ([x] + p)[i] == p[i - 1];
  }

  /** The piece that a character with no tag at it extends holds no tag. */
  lemma ExtendedPieceHoldsNoBr(s: string)
    requires s != [] && BrAt(s) == 0
    requires NoBrIn(SplitBr(s[1..]).pieces[0])
    ensures NoBrIn(SplitBr(s).pieces[0])
  {
    var t := SplitBr(s[1..]);
    var p0 := [s[0]] + t.pieces[0];
    assert SplitBr(s).pieces[0] == p0;
    NoBrAtExtendedStart(s);
    forall j | 1 <= j <= |p0|
      ensures BrAt(p0[j..]) == 0
    {
      assert p0[j..] == t.pieces[0][j - 1..];
    }
  }

  /** No tag starts the extended piece: it is a prefix of the input, at whose
      start no tag was found. */
  lemma NoBrAtExtendedStart(s: string)
    requires s != [] && BrAt(s) == 0
    ensures BrAt([s[0]] + SplitBr(s[1..]).pieces[0]) == 0
  {
    var t := SplitBr(s[1..]);
    var p0 := [s[0]] + t.pieces[0];
    if BrAt(p0) > 0 {
      SplitJoin(s[1..]);
      FirstPiecePrefix(s, p0, t);
      BrAtExtend(p0, s[|p0|..]);
    }
  }

  lemma FirstPiecePrefix(s: string, p0: string, t: Split)
    requires s != [] && |t.pieces| == |t.tags| + 1
    requires Join(t.pieces, t.tags) == s[1..]
    requires p0 == [s[0]] + t.pieces[0]
    ensures |p0| <= |s| && s == p0 + s[|p0|..]
  {
    assert s[1..][..|t.pieces[0]|] == t.pieces[0];
  }

  /** No `<` followed by a `b` and an `r` (in any case): nothing a tag could
      start with. */
  predicate NoBrStart(s: string) {
    forall i :: 0 <= i < |s| - 2 ==>
      !(s[i] == '<' && (s[i + 1] == 'b' || s[i + 1] == 'B') && (s[i + 2] == 'r' || s[i + 2] == 'R'))
  }

  /** HTML in which no line-break tag can start is one piece. */
  lemma {:induction false} SplitWithoutBr(s: string)
    requires NoBrStart(s)
    ensures SplitBr(s) == Split([s], [])
    decreases |s|
  {
    if s != [] {
      assert NoBrStart(s[1..]) by {
        forall i | 0 <= i < |s[1..]| - 2
          ensures !(s[1..][i] == '<' && (s[1..][i + 1] == 'b' || s[1..][i + 1] == 'B') && (s[1..][i + 2] == 'r' || s[1..][i + 2] == 'R'))
        {
          assert s[1..][i] == s[i + 1] && s[1..][i + 1] == s[i + 2] && s[1..][i + 2] == s[i + 3];
        }
      }
      SplitWithoutBr(s[1..]);
      assert [s[0]] + s[1..] == s;
    }
  }

  /** A text without `<` followed by a tag is cut right after that text, and
      the rest is split on its own. */
  lemma {:induction false} SplitAtTag(a: string, t: string, b: string)
    requires forall i :: 0 <= i < |a| ==> a[i] != '<'
    requires IsBrTag(t)
    ensures SplitBr(a + t + b) == Split([a] + SplitBr(b).pieces, [t] + SplitBr(b).tags)
    decreases |a|
  {
    var s := a + t + b;
    if a == [] {
      assert s == t + b;
      BrTagRecognised(t, b);
      assert s[..|t|] == t && s[|t|..] == b;
    } else {
      assert s[0] == a[0];
      assert s[1..] == a[1..] + t + b;
      SplitAtTag(a[1..], t, b);
      assert [a[0]] + a[1..] == a;
    }
  }
}
