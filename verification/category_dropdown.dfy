/** The searchable category dropdown: a name filter, the label of the
    selected category, the open/search state and the highlighting of the
    query inside each name. */
module CategoryDropdown {
  import opened Wrappers
  import opened Text

  /** The dropdown's own category shape (string ids). */
  datatype Choice = Choice(id: string, name: string, slug: string)

  /** The name filter: an item stays when its lower-cased name contains the
      lower-cased query. */
  predicate NameMatches(name: string, query: string)
  {
    Contains(Lower(name), Lower(query))
  }

  /** `items.filter(x => name(x).toLowerCase().includes(query.toLowerCase()))`. */
  function FilterByName<T(!new)>(items: seq<T>, nameOf: T -> string, query: string): (r: seq<T>)
    ensures |r| <= |items|
    ensures forall x :: x in r <==> x in items && NameMatches(nameOf(x), query)
  {
    if items == [] then []
    else
      var rest := FilterByName(items[1..], nameOf, query);
      assert forall x :: x in items <==> x == items[0] || x in items[1..];
      if NameMatches(nameOf(items[0]), query) then [items[0]] + rest else rest
  }

  /** The filter keeps the input order: filtering a concatenation
      concatenates the filtered parts. */
  lemma {:induction false} FilterKeepsOrder<T(!new)>(a: seq<T>, b: seq<T>, nameOf: T -> string, query: string)
    ensures FilterByName(a + b, nameOf, query) == FilterByName(a, nameOf, query) + FilterByName(b, nameOf, query)
  {
    if a != [] {
      var ab := a + b;
      assert ab[0] == a[0] && ab[1..] == a[1..] + b;
      FilterKeepsOrder(a[1..], b, nameOf, query);
      var ra := FilterByName(a[1..], nameOf, query);
      var rb := FilterByName(b, nameOf, query);
      if NameMatches(nameOf(a[0]), query) {
        assert FilterByName(ab, nameOf, query) == [a[0]] + (ra + rb);
        assert FilterByName(a, nameOf, query) == [a[0]] + ra;
      } else {
        assert FilterByName(ab, nameOf, query) == ra + rb;
        assert FilterByName(a, nameOf, query) == ra;
      }
    } else {
      assert a + b == b;
    }
  }

  /** An empty query keeps every item. */
  lemma {:induction false} EmptyQueryKeepsAll<T(!new)>(items: seq<T>, nameOf: T -> string)
    ensures FilterByName(items, nameOf, "") == items
  {
    if items != [] {
      ContainsEmpty(Lower(nameOf(items[0])));
      assert Lower("") == "";
      EmptyQueryKeepsAll(items[1..], nameOf);
    }
  }

  function ChoiceName(c: Choice): string
  {
    c.name
  }

  /** The first category with the given id (`find`). */
  function FindById(categories: seq<Choice>, id: string): (r: Option<Choice>)
    ensures r.Some? ==> r.value in categories && r.value.id == id
    ensures r.None? ==> forall c :: c in categories ==> c.id != id
  {
    if categories == [] then None
    else if categories[0].id == id then Some(categories[0])
    else FindById(categories[1..], id)
  }

  /** The button label: the selected category's name, else the placeholder. */
  function Label(categories: seq<Choice>, selectedId: string, placeholder: string): (r: string)
    ensures (forall c :: c in categories ==> c.id != selectedId) ==> r == placeholder
    ensures (exists c :: c in categories && c.id == selectedId) ==>
              exists c :: c in categories && c.id == selectedId && r == c.name
  {
    var found := FindById(categories, selectedId);
    if found.Some? then found.value.name else placeholder
  }

  /** One piece of a highlighted name. */
  datatype Part = Part(text: string, marked: bool)

  /** `needle` occurs at `i` in `s` when case is ignored. */
  predicate OccursAtIgnoringCase(s: string, needle: string, i: int)
  {
    OccursAt(Lower(s), Lower(needle), i)
  }

  /** Where the first case-insensitive match of `needle` starts, or -1. */
  function FirstMatch(text: string, needle: string): (r: int)
    requires |needle| > 0
    ensures r < 0 ==> r == -1 && forall j :: 0 <= j < |text| ==> !OccursAtIgnoringCase(text, needle, j)
    ensures r >= 0 ==> r + |needle| <= |text| && OccursAtIgnoringCase(text, needle, r) &&
                       forall j :: 0 <= j < r ==> !OccursAtIgnoringCase(text, needle, j)
  {
    IndexOf(Lower(text), Lower(needle))
  }

  /** The pieces of `text` that `text.split(/(needle)/gi)` yields for a
      needle free of regular-expression metacharacters: the text between
      matches, and each match itself. */
  function SplitIgnoringCase(text: string, needle: string): (r: seq<string>)
    requires |needle| > 0
    ensures |r| % 2 == 1
    decreases |text|
  {
    var i := FirstMatch(text, needle);
    if i < 0 then [text]
    else [text[..i], text[i..i + |needle|]] + SplitIgnoringCase(text[i + |needle|..], needle)
  }

  function Concat(parts: seq<string>): string
  {
    if parts == [] then "" else parts[0] + Concat(parts[1..])
  }

  lemma ConcatAppend(a: seq<string>, b: seq<string>)
    ensures Concat(a + b) == Concat(a) + Concat(b)
  {
    if a != [] {
      assert (a + b)[1..] == a[1..] + b;
      ConcatAppend(a[1..], b);
    } else {
      assert a + b == b;
    }
  }

  /** Splitting loses nothing: the pieces concatenate back to the text. */
  lemma {:induction false} SplitConcat(text: string, needle: string)
    requires |needle| > 0
    ensures Concat(SplitIgnoringCase(text, needle)) == text
    decreases |text|
  {
    var i := FirstMatch(text, needle);
    if i >= 0 {
      var rest := text[i + |needle|..];
      SplitConcat(rest, needle);
      ConcatAroundMatch(text, i, i + |needle|, SplitIgnoringCase(rest, needle));
    }
  }

  /** The text before a match, the match and pieces that concatenate to
      the rest concatenate to the whole text. */
  lemma ConcatAroundMatch(text: string, i: nat, j: nat, pieces: seq<string>)
    requires i <= j <= |text| && Concat(pieces) == text[j..]
    ensures Concat([text[..i], text[i..j]] + pieces) == text
  {
    ConcatAppend([text[..i], text[i..j]], pieces);
    assert Concat([text[..i], text[i..j]]) == text[..i] + text[i..j] + Concat([]);
    assert text[..i] + text[i..j] + text[j..] == text;
  }

  /** Piece `k` of a split: an even piece holds no match, an odd piece is a
      match. */
  predicate PieceFits(piece: string, needle: string, k: nat)
  {
    if k % 2 == 0 then !Contains(Lower(piece), Lower(needle)) else Lower(piece) == Lower(needle)
  }

  /** The even pieces hold no match; the odd pieces are matches. */
  lemma {:induction false} SplitAlternates(text: string, needle: string)
    requires |needle| > 0
    ensures forall k :: 0 <= k < |SplitIgnoringCase(text, needle)| ==>
              PieceFits(SplitIgnoringCase(text, needle)[k], needle, k)
    decreases |text|
  {
    var i := FirstMatch(text, needle);
    if i < 0 {
      NoOccurrence(text, needle, |text|);
      assert text[..|text|] == text;
      assert PieceFits(text, needle, 0);
      assert SplitIgnoringCase(text, needle) == [text];
    } else {
      var rest := text[i + |needle|..];
      SplitAlternates(rest, needle);
      HeadPiecesFit(text, needle, i);
      var r := [text[..i], text[i..i + |needle|]] + SplitIgnoringCase(rest, needle);
      FitsShift(text[..i], text[i..i + |needle|], SplitIgnoringCase(rest, needle), needle);
      assert SplitIgnoringCase(text, needle) == r;
    }
  }

  /** Before the first match there is none; the first match is one. */
  lemma HeadPiecesFit(text: string, needle: string, i: int)
    requires |needle| > 0 && i == FirstMatch(text, needle) && i >= 0
    ensures PieceFits(text[..i], needle, 0) && PieceFits(text[i..i + |needle|], needle, 1)
  {
    NoOccurrence(text, needle, i);
    LowerSlice(text, i, i + |needle|);
  }

  /** Two fitting pieces in front of a fitting split keep it alternating. */
  lemma FitsShift(a: string, b: string, rest: seq<string>, needle: string)
    requires PieceFits(a, needle, 0) && PieceFits(b, needle, 1)
    requires forall k :: 0 <= k < |rest| ==> PieceFits(rest[k], needle, k)
    ensures forall k :: 0 <= k < |[a, b] + rest| ==> PieceFits(([a, b] + rest)[k], needle, k)
  {
    var r := [a, b] + rest;
    forall k | 0 <= k < |r| ensures PieceFits(r[k], needle, k) {
      if k >= 2 {
        assert r[k] == rest[k - 2];
        assert PieceFits(rest[k - 2], needle, k - 2);
      }
    }
  }

  lemma LowerSlice(s: string, a: int, b: int)
    requires 0 <= a <= b <= |s|
    ensures Lower(s[a..b]) == Lower(s)[a..b]
  {
  }

  /** When no case-insensitive match starts before `n`, the prefix of length
      `n` holds no match. */
  lemma NoOccurrence(text: string, needle: string, n: int)
    requires |needle| > 0 && 0 <= n <= |text|
    requires forall j :: 0 <= j < n ==> !OccursAt(Lower(text), Lower(needle), j)
    ensures !Contains(Lower(text[..n]), Lower(needle))
  {
    LowerSlice(text, 0, n);
    if Contains(Lower(text[..n]), Lower(needle)) {
      var j :| 0 <= j <= |Lower(text[..n])| - |Lower(needle)| && OccursAt(Lower(text[..n]), Lower(needle), j);
      assert Lower(text)[..n][j..j + |needle|] == Lower(text)[j..j + |needle|];
      assert OccursAt(Lower(text), Lower(needle), j);
    }
  }

  /** `highlightText`: a blank highlight leaves the text whole; otherwise
      every piece of the split is marked when the highlight occurs in it. */
  function Highlight(text: string, highlight: string): (r: seq<Part>)
  {
    if Trim(highlight) == [] then [Part(text, false)]
    else
      var pieces := SplitIgnoringCase(text, highlight);
      seq(|pieces|, k requires 0 <= k < |pieces| =>
        Part(pieces[k], Contains(Lower(pieces[k]), Lower(highlight))))
  }

  function PartTexts(parts: seq<Part>): (r: seq<string>)
    ensures |r| == |parts| && forall k :: 0 <= k < |parts| ==> r[k] == parts[k].text
  {
    seq(|parts|, k requires 0 <= k < |parts| => parts[k].text)
  }

  /** Highlighting never changes the text, and the marked pieces are exactly
      the matches of the highlight. */
  lemma HighlightProperties(text: string, highlight: string)
    ensures Concat(PartTexts(Highlight(text, highlight))) == text
    ensures forall k :: 0 <= k < |Highlight(text, highlight)| && Highlight(text, highlight)[k].marked ==>
              Lower(Highlight(text, highlight)[k].text) == Lower(highlight)
    ensures Trim(highlight) != [] ==>
              forall k :: 0 <= k < |Highlight(text, highlight)| ==> (Highlight(text, highlight)[k].marked <==> k % 2 == 1)
  {
    HighlightKeepsText(text, highlight);
    if Trim(highlight) != [] {
      HighlightMarksMatches(text, highlight);
    }
  }

  lemma HighlightKeepsText(text: string, highlight: string)
    ensures Concat(PartTexts(Highlight(text, highlight))) == text
  {
    var parts := Highlight(text, highlight);
    if Trim(highlight) == [] {
      assert Concat(PartTexts(parts)) == text + Concat([]);
    } else {
      assert PartTexts(parts) == SplitIgnoringCase(text, highlight);
      SplitConcat(text, highlight);
    }
  }

  lemma HighlightMarksMatches(text: string, highlight: string)
    requires Trim(highlight) != []
    ensures forall k :: 0 <= k < |Highlight(text, highlight)| ==>
              (Highlight(text, highlight)[k].marked <==> k % 2 == 1) &&
              (Highlight(text, highlight)[k].marked ==> Lower(Highlight(text, highlight)[k].text) == Lower(highlight))
  {
    var parts := Highlight(text, highlight);
    var pieces := SplitIgnoringCase(text, highlight);
    SplitAlternates(text, highlight);
    ContainsSelf(Lower(highlight));
    forall k | 0 <= k < |parts|
      ensures (parts[k].marked <==> k % 2 == 1) && (parts[k].marked ==> Lower(parts[k].text) == Lower(highlight))
    {
      assert parts[k] == Part(pieces[k], Contains(Lower(pieces[k]), Lower(highlight)));
      assert PieceFits(pieces[k], highlight, k);
    }
  }

  lemma ContainsSelf(s: string)
    ensures Contains(s, s)
  {
    assert OccursAt(s, s, 0);
  }

  /** The dropdown's state: open or closed, and the search text. */
  class Dropdown {
    var isOpen: bool
    var searchQuery: string

    constructor ()
      ensures !isOpen && searchQuery == ""
    {
      isOpen := false;
      searchQuery := "";
    }

    /** The trigger button: opens a closed dropdown; closing clears the
        search. */
    method Toggle()
      modifies this
      ensures isOpen == !old(isOpen)
      ensures searchQuery == if old(isOpen) then "" else old(searchQuery)
    {
      var wasOpen := isOpen;
      isOpen := !isOpen;
      if wasOpen {
        searchQuery := "";
      }
    }

    /** A mouse-down outside the dropdown closes it and clears the search. */
    method ClickOutside()
      modifies this
      ensures !isOpen && searchQuery == ""
    {
      isOpen := false;
      searchQuery := "";
    }

    method Search(q: string)
      modifies this
      ensures searchQuery == q && isOpen == old(isOpen)
    {
      searchQuery := q;
    }

    /** Choosing a category reports its id, closes the dropdown and clears
        the search. */
    method Select(c: Choice) returns (selected: string)
      modifies this
      ensures selected == c.id
      ensures !isOpen && searchQuery == ""
    {
      selected := c.id;
      isOpen := false;
      searchQuery := "";
    }

    /** The categories listed under the search box. */
    function Visible(categories: seq<Choice>): seq<Choice>
      reads this
    {
      FilterByName(categories, ChoiceName, searchQuery)
    }
  }
}
