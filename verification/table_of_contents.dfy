/** The table of contents beside a post: the headings found in the markdown
    by the global, multi-line pattern `^(#{1,3})\s+(.+)$`, each with its
    level, its text and an anchor id made from the text. The pattern is
    modelled as the backtracking matcher runs it: at a line start, one to
    three '#' (exactly as many as there are), a white-space run that may
    cross line ends, then the rest of a line, giving up trailing white
    space of the run when nothing else is left for `.+`. */
module TableOfContents {
  import opened Wrappers
  import opened Text

  datatype TocItem = TocItem(id: string, text: string, level: int)

  /** Where a match starts, how many '#' it has, and where its text starts
      and ends. */
  datatype HeadingMatch = HeadingMatch(start: nat, level: nat, textStart: nat, end: nat)

  /** `^` in multi-line mode. */
  predicate LineStart(s: string, p: int)
  {
    p == 0 || (0 < p <= |s| && IsLineTerminator(s[p - 1]))
  }

  /** The number of '#' from `p` on. */
  function HashRun(s: string, p: nat): (n: nat)
    requires p <= |s|
    ensures p + n <= |s|
    ensures forall i :: p <= i < p + n ==> s[i] == '#'
    ensures p + n == |s| || s[p + n] != '#'
    decreases |s| - p
  {
    if p < |s| && s[p] == '#' then 1 + HashRun(s, p + 1) else 0
  }

  /** The number of white-space characters from `p` on. */
  function SpaceRun(s: string, p: nat): (n: nat)
    requires p <= |s|
    ensures p + n <= |s|
    ensures forall i :: p <= i < p + n ==> IsSpace(s[i])
    ensures p + n == |s| || !IsSpace(s[p + n])
    decreases |s| - p
  {
    if p < |s| && IsSpace(s[p]) then 1 + SpaceRun(s, p + 1) else 0
  }

  /** The end of the line holding `p`: the next line terminator, or the end. */
  function LineEnd(s: string, p: nat): (e: nat)
    requires p <= |s|
    ensures p <= e <= |s|
    ensures forall i :: p <= i < e ==> !IsLineTerminator(s[i])
    ensures e == |s| || IsLineTerminator(s[e])
    decreases |s| - p
  {
    if p < |s| && !IsLineTerminator(s[p]) then LineEnd(s, p + 1) else p
  }

  /** Whether `.` matches the character `j` places after `q`. */
  predicate DotAt(s: string, q: nat, j: nat)
  {
    q + j < |s| && !IsLineTerminator(s[q + j])
  }

  /** The largest `j` in `1..k` with `DotAt(s, q, j)`, or 0: the backtracking
      of `\s+` until `.+` can match. */
  function TextOffset(s: string, q: nat, k: nat): (j: nat)
    requires q + k <= |s|
    ensures j <= k
    ensures j > 0 ==> DotAt(s, q, j)
    ensures forall i :: j < i <= k ==> !DotAt(s, q, i)
  {
    if k == 0 then 0
    else if DotAt(s, q, k) then k
    else TextOffset(s, q, k - 1)
  }

  /** The shape of a match: at a line start, one to three '#' and no more,
      a white-space run, then a text that runs to the end of its line. */
  predicate HeadingShape(s: string, m: HeadingMatch)
  {
    LineStart(s, m.start) && 1 <= m.level <= 3 &&
    m.start + m.level < m.textStart < m.end <= |s| &&
    (forall i :: m.start <= i < m.start + m.level ==> s[i] == '#') && s[m.start + m.level] != '#' &&
    (forall i :: m.start + m.level <= i < m.textStart ==> IsSpace(s[i])) &&
    (forall i :: m.textStart <= i < m.end ==> !IsLineTerminator(s[i])) &&
    (m.end == |s| || IsLineTerminator(s[m.end]))
  }

  /** The match of the pattern at `p`, if there is one. */
  function MatchAt(s: string, p: nat): (r: Option<HeadingMatch>)
    requires p <= |s|
    ensures r.Some? ==> r.value.start == p && p < r.value.textStart < r.value.end <= |s|
  {
    if !LineStart(s, p) then None
    else
      var h := HashRun(s, p);
      if h < 1 || h > 3 then None
      else
        var w := SpaceRun(s, p + h);
        if w == 0 then None
        else
          var k := TextOffset(s, p + h, w);
          if k == 0 then None
          else Some(HeadingMatch(p, h, p + h + k, LineEnd(s, p + h + k)))
  }

  /** Every match has the heading shape. */
  lemma MatchAtShape(s: string, p: nat)
    requires p <= |s| && MatchAt(s, p).Some?
    ensures MatchAt(s, p).value.start == p && HeadingShape(s, MatchAt(s, p).value)
  {
  }

  /** Four or more '#' at a line start never make a heading. */
  lemma FourHashesNeverMatch(s: string, p: nat)
    requires p + 4 <= |s| && s[p] == '#' && s[p + 1] == '#' && s[p + 2] == '#' && s[p + 3] == '#'
    ensures MatchAt(s, p).None?
  {
    assert HashRun(s, p) >= 4;
  }

  /** The first match at or after `from` (one `exec` of the global pattern). */
  function NextMatch(s: string, from: nat): (r: Option<HeadingMatch>)
    requires from <= |s|
    ensures r.Some? ==> from <= r.value.start <= |s| && MatchAt(s, r.value.start) == r
    decreases |s| - from
  {
    if MatchAt(s, from).Some? then MatchAt(s, from)
    else if from == |s| then None
    else NextMatch(s, from + 1)
  }

  /** One step of the search: a match here is the one found, otherwise the
      search goes on at the next position. */
  lemma NextMatchStep(s: string, from: nat)
    requires from <= |s|
    ensures MatchAt(s, from).Some? ==> NextMatch(s, from) == MatchAt(s, from)
    ensures MatchAt(s, from).None? && from < |s| ==> NextMatch(s, from) == NextMatch(s, from + 1)
    ensures MatchAt(s, from).None? && from == |s| ==> NextMatch(s, from).None?
  {
  }

  /** The search finds the first match: there is none before it, nor
      anywhere when it finds nothing. */
  lemma {:induction false} NextMatchIsFirst(s: string, from: nat, p: nat)
    requires from <= p <= |s|
    requires NextMatch(s, from).None? || p < NextMatch(s, from).value.start
    ensures MatchAt(s, p).None?
    decreases p - from
  {
    NextMatchStep(s, from);
    if p > from {
      assert NextMatch(s, from) == NextMatch(s, from + 1);
      NextMatchIsFirst(s, from + 1, p);
    }
  }

  /** All matches from `from` on, each search starting where the previous
      match ended. */
  function Matches(s: string, from: nat): (ms: seq<HeadingMatch>)
    requires from <= |s|
    ensures forall i :: 0 <= i < |ms| ==> from <= ms[i].start < ms[i].textStart < ms[i].end <= |s|
    decreases |s| - from
  {
    var m := NextMatch(s, from);
    if m.None? then [] else [m.value] + Matches(s, m.value.end)
  }

  /** Each element of `Matches` is the pattern's match at its start. */
  lemma {:induction false} MatchesAreMatches(s: string, from: nat, i: nat)
    requires from <= |s| && i < |Matches(s, from)|
    ensures MatchAt(s, Matches(s, from)[i].start) == Some(Matches(s, from)[i])
    decreases i
  {
    var m := NextMatch(s, from);
    if i > 0 {
      MatchesAreMatches(s, m.value.end, i - 1);
    }
  }

  /** One step of the search: no match ends the list, a match heads it. */
  lemma MatchesStep(s: string, from: nat)
    requires from <= |s|
    ensures NextMatch(s, from).None? ==> Matches(s, from) == []
    ensures NextMatch(s, from).Some? ==>
              Matches(s, from) == [NextMatch(s, from).value] + Matches(s, NextMatch(s, from).value.end)
  {
  }

  /** Matches come in document order and never overlap. */
  lemma {:induction false} MatchesInOrder(s: string, from: nat, i: nat)
    requires from <= |s| && i + 1 < |Matches(s, from)|
    ensures Matches(s, from)[i].end <= Matches(s, from)[i + 1].start
    decreases i
  {
    MatchesStep(s, from);
    var m := NextMatch(s, from).value;
    var rest := Matches(s, m.end);
    if i > 0 {
      MatchesInOrder(s, m.end, i - 1);
    } else {
      assert rest[0].start >= m.end;
    }
  }

  /** Characters kept by `replace(/[^\w\s-]/g, '')`. */
  predicate IdChar(c: char)
  {
    IsWordChar(c) || IsSpace(c) || c == '-'
  }

  function KeepIdChars(s: string): (r: string)
    ensures forall i :: 0 <= i < |r| ==> IdChar(r[i])
  {
    if s == [] then [] else (if IdChar(s[0]) then [s[0]] else []) + KeepIdChars(s[1..])
  }

  /** `replace(/\s+/g, '-')`: every white-space run becomes one dash. */
  function SpacesToDash(s: string): (r: string)
    ensures forall i :: 0 <= i < |r| ==> !IsSpace(r[i])
    ensures (forall i :: 0 <= i < |s| ==> IdChar(s[i])) ==> forall i :: 0 <= i < |r| ==> IsWordChar(r[i]) || r[i] == '-'
    decreases |s|
  {
    if s == [] then []
    else if IsSpace(s[0]) then
      var rest := TrimStart(s[1..]);
      assert forall i :: 0 <= i < |rest| ==> rest[i] == s[|s| - |rest| + i];
      ['-'] + SpacesToDash(TrimStart(s[1..]))
    else [s[0]] + SpacesToDash(s[1..])
  }

  /** The anchor id of a heading text. */
  function HeadingId(text: string): (id: string)
    ensures forall i :: 0 <= i < |id| ==> !IsSpace(id[i]) && (IsWordChar(id[i]) || id[i] == '-')
  {
    SpacesToDash(KeepIdChars(Lower(text)))
  }

  function ItemOf(s: string, m: HeadingMatch): TocItem
    requires m.textStart <= m.end <= |s|
  {
    var text := s[m.textStart..m.end];
    TocItem(HeadingId(text), text, m.level)
  }

  /** The entries of the table, from the search starting at `from` on. */
  function Headings(s: string, from: nat): (items: seq<TocItem>)
    requires from <= |s|
    decreases |s| - from
  {
    var m := NextMatch(s, from);
    if m.None? then [] else [ItemOf(s, m.value)] + Headings(s, m.value.end)
  }

  lemma HeadingsStep(s: string, from: nat)
    requires from <= |s|
    ensures NextMatch(s, from).None? ==> Headings(s, from) == []
    ensures NextMatch(s, from).Some? ==>
              Headings(s, from) == [ItemOf(s, NextMatch(s, from).value)] + Headings(s, NextMatch(s, from).value.end)
  {
  }

  /** One entry per match ... */
  lemma {:induction false} HeadingsCount(s: string, from: nat)
    requires from <= |s|
    ensures |Headings(s, from)| == |Matches(s, from)|
    decreases |s| - from
  {
    HeadingsStep(s, from);
    MatchesStep(s, from);
    if NextMatch(s, from).Some? {
      HeadingsCount(s, NextMatch(s, from).value.end);
    }
  }

  /** ... in the same order. */
  lemma {:induction false} HeadingOfMatch(s: string, from: nat, i: nat)
    requires from <= |s| && i < |Matches(s, from)|
    ensures i < |Headings(s, from)| && Headings(s, from)[i] == ItemOf(s, Matches(s, from)[i])
    decreases i
  {
    HeadingsStep(s, from);
    MatchesStep(s, from);
    var m := NextMatch(s, from).value;
    if i > 0 {
      HeadingOfMatch(s, m.end, i - 1);
    }
  }

  /** The extraction loop of the component: `exec` until it finds nothing,
      pushing one entry per match. */
  method ExtractHeadings(content: string) returns (items: seq<TocItem>)
    ensures items == Headings(content, 0)
  {
    items := [];
    var pos: nat := 0;
    while true
      invariant pos <= |content|
      invariant Headings(content, 0) == items + Headings(content, pos)
      decreases |content| - pos
    {
      var m := NextMatch(content, pos);
      if m.None? {
        HeadingsStep(content, pos);
        return;
      }
      ExtractStep(content, pos, items);
      items := items + [ItemOf(content, m.value)];
      pos := m.value.end;
    }
  }

  /** The loop's step: the entry of the next match moves from the rest of
      the document to the list. */
  lemma ExtractStep(s: string, pos: nat, items: seq<TocItem>)
    requires pos <= |s| && NextMatch(s, pos).Some?
    ensures var m := NextMatch(s, pos).value;
            items + Headings(s, pos) == (items + [ItemOf(s, m)]) + Headings(s, m.end)
  {
    HeadingsStep(s, pos);
  }

  /** Every entry has level 1 to 3, a non-empty one-line text, and an id
      free of white space. */
  lemma HeadingsShape(content: string, i: nat)
    requires i < |Headings(content, 0)|
    ensures var item := Headings(content, 0)[i];
            1 <= item.level <= 3 && item.text != [] &&
            (forall k :: 0 <= k < |item.text| ==> !IsLineTerminator(item.text[k])) &&
            (forall k :: 0 <= k < |item.id| ==> !IsSpace(item.id[k]))
  {
    HeadingsCount(content, 0);
    var m := Matches(content, 0)[i];
    HeadingOfMatch(content, 0, i);
    assert HeadingShape(content, m) by {
      MatchesAreMatches(content, 0, i);
      MatchAtShape(content, m.start);
    }
    var text := content[m.textStart..m.end];
    var item := Headings(content, 0)[i];
    assert item == TocItem(HeadingId(text), text, m.level);
    forall k | 0 <= k < |text| ensures !IsLineTerminator(text[k]) {
      assert text[k] == content[m.textStart + k];
    }
  }

  /** Content without '#' has no headings, so nothing is rendered. */
  lemma NoHashNoHeadings(content: string)
    requires '#' !in content
    ensures Matches(content, 0) == [] && Headings(content, 0) == []
  {
    HeadingsCount(content, 0);
    forall p | 0 <= p < |content| ensures content[p] != '#' {
    }
    var m := NextMatch(content, 0);
    if m.Some? {
      MatchAtShape(content, m.value.start);
    }
    assert m.None?;
  }

  /** A one-line document "# Intro" has a single match, of level 1, whose
      text is "Intro" ... */
  lemma SingleHeading()
    ensures Matches("# Intro", 0) == [HeadingMatch(0, 1, 2, 7)]
  {
    var s := "# Intro";
    IntroMatch();
    MatchesStep(s, 0);
    MatchesStep(s, 7);
    assert NextMatch(s, 7) == None by {
      assert !LineStart(s, 7);
    }
  }

  lemma IntroMatch()
    ensures MatchAt("# Intro", 0) == Some(HeadingMatch(0, 1, 2, 7))
  {
    var s := "# Intro";
    assert HashRun(s, 1) == 0;
    assert HashRun(s, 0) == 1;
    assert SpaceRun(s, 2) == 0;
    assert SpaceRun(s, 1) == 1;
    assert TextOffset(s, 1, 1) == 1;
    assert LineEnd(s, 2) == 7;
  }

  lemma {:induction false} KeepAllIdChars(s: string)
    requires forall i :: 0 <= i < |s| ==> IdChar(s[i])
    ensures KeepIdChars(s) == s
  {
    if s != [] {
      KeepAllIdChars(s[1..]);
    }
  }

  lemma {:induction false} SpacesToDashWithoutSpace(s: string)
    requires forall i :: 0 <= i < |s| ==> !IsSpace(s[i])
    ensures SpacesToDash(s) == s
  {
    if s != [] {
      SpacesToDashWithoutSpace(s[1..]);
    }
  }

  /** A text whose lower-case form is made of letters, digits, '_' and '-'
      has that form as its id. */
  lemma HeadingIdOfId(text: string, id: string)
    requires Lower(text) == id
    requires forall i :: 0 <= i < |id| ==> IsWordChar(id[i]) || id[i] == '-'
    ensures HeadingId(text) == id
  {
    KeepAllIdChars(id);
    SpacesToDashWithoutSpace(id);
  }

  /** ... and whose entry is ("intro", "Intro", 1). */
  lemma SingleHeadingItem()
    ensures ItemOf("# Intro", HeadingMatch(0, 1, 2, 7)) == TocItem("intro", "Intro", 1)
  {
    assert "# Intro"[2..7] == "Intro";
    assert Lower("Intro") == "intro";
    HeadingIdOfId("Intro", "intro");
  }
}
