/** Text helpers of the post and comment editors: wrapping the textarea
    selection in a prefix and a suffix, turning a title or a category name
    into a slug, and converting between a tag list and the comma-separated
    text of the tags field. */
module EditorText {
  import opened Text

  /* ---------- Wrapping the selection ---------- */

  /** The new text of the textarea and the cursor position after it. */
  datatype Insertion = Insertion(text: string, cursor: int)

  /** `handleInsert`: the selection `[start, end)` is wrapped in `prefix` and
      `suffix` (all cuts are JavaScript `substring`s), and the cursor goes
      right after the suffix. */
  function InsertAround(text: string, start: int, end: int, prefix: string, suffix: string): Insertion
  {
    var selection := Substring(text, start, end);
    Insertion(Substring(text, 0, start) + prefix + selection + suffix + Substring(text, end, |text|),
              start + |prefix| + |selection| + |suffix|)
  }

  /** For a selection inside the text: the text before and after the
      selection is kept, the selection sits between prefix and suffix, the
      text grows by exactly the two inserted strings, and the cursor lands
      right after the suffix, never beyond the end. */
  lemma InsertAroundSelection(text: string, start: int, end: int, prefix: string, suffix: string)
    requires 0 <= start <= end <= |text|
    ensures InsertAround(text, start, end, prefix, suffix).text ==
              text[..start] + prefix + text[start..end] + suffix + text[end..]
    ensures |InsertAround(text, start, end, prefix, suffix).text| == |text| + |prefix| + |suffix|
    ensures InsertAround(text, start, end, prefix, suffix).cursor == end + |prefix| + |suffix|
    ensures InsertAround(text, start, end, prefix, suffix).cursor <= |InsertAround(text, start, end, prefix, suffix).text|
    ensures InsertAround(text, start, end, prefix, suffix).text[..start] == text[..start]
    ensures InsertAround(text, start, end, prefix, suffix).text[end + |prefix| + |suffix|..] == text[end..]
    ensures InsertAround(text, start, end, prefix, suffix).text[end + |prefix|..end + |prefix| + |suffix|] == suffix
  {
    var r := InsertAround(text, start, end, prefix, suffix).text;
    assert Substring(text, 0, start) == text[..start];
    assert Substring(text, end, |text|) == text[end..];
    var before := text[..start] + prefix + text[start..end];
    assert r == before + suffix + text[end..];
    assert |before| == end + |prefix|;
    assert r[end + |prefix| + |suffix|..] == text[end..];
    assert r[end + |prefix|..end + |prefix| + |suffix|] == suffix;
  }

  /** Removing what was inserted gives back the original text. */
  lemma InsertAroundUndo(text: string, start: int, end: int, prefix: string, suffix: string)
    requires 0 <= start <= end <= |text|
    ensures var r := InsertAround(text, start, end, prefix, suffix).text;
            r[..start] + r[start + |prefix|..end + |prefix|] + r[end + |prefix| + |suffix|..] == text
  {
    InsertAroundPieces(text, start, end, prefix, suffix);
    DropInserted(text, start, end, prefix, suffix, InsertAround(text, start, end, prefix, suffix).text);
  }

  /** Cutting the two inserted pieces out again. */
  lemma DropInserted(text: string, start: int, end: int, prefix: string, suffix: string, r: string)
    requires 0 <= start <= end <= |text|
    requires r == text[..start] + prefix + text[start..end] + suffix + text[end..]
    ensures r[..start] + r[start + |prefix|..end + |prefix|] + r[end + |prefix| + |suffix|..] == text
  {
    assert r[..start] == text[..start];
    assert r[start + |prefix|..end + |prefix|] == text[start..end];
    assert r[end + |prefix| + |suffix|..] == text[end..];
    assert text[..start] + text[start..end] + text[end..] == text;
  }

  /** Inside the text, the cuts are plain slices. */
  lemma InsertAroundPieces(text: string, start: int, end: int, prefix: string, suffix: string)
    requires 0 <= start <= end <= |text|
    ensures InsertAround(text, start, end, prefix, suffix).text ==
              text[..start] + prefix + text[start..end] + suffix + text[end..]
  {
    assert Substring(text, 0, start) == text[..start];
    assert Substring(text, start, end) == text[start..end];
    assert Substring(text, end, |text|) == text[end..];
  }

  /* ---------- Slugs ---------- */

  /** The characters a slug may hold. */
  predicate IsSlugChar(c: char)
  {
    IsLowerAlnum(c) || c == '-'
  }

  /** Only slug characters, and never two dashes in a row. */
  predicate DashSeparated(s: string)
  {
    (forall i :: 0 <= i < |s| ==> IsSlugChar(s[i])) &&
    (forall i :: 0 <= i < |s| - 1 ==> !(s[i] == '-' && s[i + 1] == '-'))
  }

  /** The text after a leading run of characters outside `[a-z0-9]`. */
  function SkipRun(s: string): (r: string)
    ensures |r| <= |s| && r == s[|s| - |r|..]
    ensures r == [] || IsLowerAlnum(r[0])
  {
    if s != [] && !IsLowerAlnum(s[0]) then
      var r := SkipRun(s[1..]);
      assert s[1..][|s| - 1 - |r|..] == s[|s| - |r|..];
      r
    else s
  }

  /** `s.replace(/[^a-z0-9]+/g, '-')`: every maximal run of characters
      outside `[a-z0-9]` becomes one dash. */
  function DashRuns(s: string): (r: string)
    ensures DashSeparated(r)
    ensures s == [] <==> r == []
    ensures s != [] ==> (r[0] == '-' <==> !IsLowerAlnum(s[0]))
    decreases |s|
  {
    if s == [] then []
    else if IsLowerAlnum(s[0]) then [s[0]] + DashRuns(s[1..])
    else ['-'] + DashRuns(SkipRun(s[1..]))
  }

  /** The letters and digits of a string, in order. */
  function Alnums(s: string): string
  {
    if s == [] then [] else (if IsLowerAlnum(s[0]) then [s[0]] else []) + Alnums(s[1..])
  }

  lemma AlnumsAppend(a: string, b: string)
    ensures Alnums(a + b) == Alnums(a) + Alnums(b)
  {
    if a != [] {
      assert (a + b)[1..] == a[1..] + b;
      AlnumsAppend(a[1..], b);
    } else {
      assert a + b == b;
    }
  }

  lemma {:induction false} SkipRunAlnums(s: string)
    ensures Alnums(SkipRun(s)) == Alnums(s)
  {
    if s != [] && !IsLowerAlnum(s[0]) {
      SkipRunAlnums(s[1..]);
    }
  }

  /** Replacing the runs keeps every letter and digit, in order. */
  lemma {:induction false} DashRunsKeepsAlnums(s: string)
    ensures Alnums(DashRuns(s)) == Alnums(s)
    decreases |s|
  {
    if s != [] {
      if IsLowerAlnum(s[0]) {
        DashRunsKeepsAlnums(s[1..]);
        AlnumsAppend([s[0]], DashRuns(s[1..]));
      } else {
        SkipRunAlnums(s[1..]);
        DashRunsKeepsAlnums(SkipRun(s[1..]));
        AlnumsAppend(['-'], DashRuns(SkipRun(s[1..])));
      }
    }
  }

  /** A piece of a dash-separated string is dash-separated. */
  lemma SliceDashSeparated(s: string, a: int, b: int)
    requires DashSeparated(s) && 0 <= a <= b <= |s|
    ensures DashSeparated(s[a..b])
  {
    var t := s[a..b];
    assert forall i :: 0 <= i < |t| ==> t[i] == s[a + i];
  }

  /** `s.replace(/(^-|-$)+/g, '')`: one dash at each end is removed. */
  function StripEdgeDashes(s: string): (r: string)
    ensures |r| <= |s|
  {
    var a := if s != [] && s[0] == '-' then s[1..] else s;
    if a != [] && a[|a| - 1] == '-' then a[..|a| - 1] else a
  }

  /** On a dash-separated string, stripping leaves no dash at either end. */
  lemma StripEdgeDashesClean(s: string)
    requires DashSeparated(s)
    ensures var r := StripEdgeDashes(s);
            DashSeparated(r) && (r == [] || (r[0] != '-' && r[|r| - 1] != '-'))
  {
    var r := StripEdgeDashes(s);
    var lo := if s != [] && s[0] == '-' then 1 else 0;
    var hi := lo + |r|;
    assert r == s[lo..hi];
    SliceDashSeparated(s, lo, hi);
    if r != [] {
      assert r[0] == s[lo];
      assert r[|r| - 1] == s[hi - 1];
    }
  }

  /** The title-to-slug rule of the new-post form. */
  function Slugify(title: string): (r: string)
    ensures DashSeparated(r)
    ensures r == [] || (r[0] != '-' && r[|r| - 1] != '-')
  {
    var d := DashRuns(Lower(title));
    StripEdgeDashesClean(d);
    StripEdgeDashes(d)
  }

  /** A slug keeps every letter and digit of the lower-cased title, in order. */
  lemma SlugifyKeepsAlnums(title: string)
    ensures Alnums(Slugify(title)) == Alnums(Lower(title))
  {
    DashRunsKeepsAlnums(Lower(title));
    StripEdgeDashesAlnums(DashRuns(Lower(title)));
  }

  /** Only dashes are stripped. */
  lemma StripEdgeDashesAlnums(d: string)
    ensures Alnums(StripEdgeDashes(d)) == Alnums(d)
  {
    var a := if d != [] && d[0] == '-' then d[1..] else d;
    if d != [] && d[0] == '-' {
      DropLeadingDash(d[1..]);
      assert d == ['-'] + d[1..];
    }
    if a != [] && a[|a| - 1] == '-' {
      DropTrailingDash(a[..|a| - 1]);
      assert a == a[..|a| - 1] + ['-'];
    }
  }

  lemma DropLeadingDash(s: string)
    ensures Alnums(['-'] + s) == Alnums(s)
  {
    AlnumsAppend(['-'], s);
  }

  lemma DropTrailingDash(s: string)
    ensures Alnums(s + ['-']) == Alnums(s)
  {
    AlnumsAppend(s, ['-']);
  }

  /** Slugs are stable: a slug is its own slug. */
  lemma SlugifyIdempotent(title: string)
    ensures Slugify(Slugify(title)) == Slugify(title)
  {
    var s := Slugify(title);
    LowerOfSlug(s);
    DashRunsOfSlug(s);
  }

  lemma LowerOfSlug(s: string)
    requires DashSeparated(s)
    ensures Lower(s) == s
  {
  }

  lemma {:induction false} DashRunsOfSlug(s: string)
    requires DashSeparated(s)
    ensures DashRuns(s) == s
    decreases |s|
  {
    if s != [] {
      if IsLowerAlnum(s[0]) {
        DashRunsOfSlug(s[1..]);
      } else {
        assert s[0] == '-';
        var t := s[1..];
        assert t == [] || IsLowerAlnum(t[0]);
        assert SkipRun(t) == t;
        DashRunsOfSlug(t);
      }
    }
  }

  /** The category manager's slug rule: no dash trimming. */
  function CategorySlug(name: string): (r: string)
    ensures DashSeparated(r)
    ensures r == [] <==> name == []
    ensures name != [] ==> (r[0] == '-' <==> !IsLowerAlnum(LowerChar(name[0])))
  {
    DashRuns(Lower(name))
  }

  /* ---------- Tags ---------- */

  /** A tag as the tags field yields it. */
  predicate CleanTag(t: string)
  {
    t != [] && IsTrimmed(t) && ',' !in t
  }

  /** Trimming never brings in a character. */
  lemma TrimKeepsOut(s: string, c: char)
    requires c !in s
    ensures c !in Trim(s)
  {
    var a := TrimStart(s);
    assert a == s[|s| - |a|..];
    assert c !in a;
    assert TrimEnd(a) == a[..|TrimEnd(a)|];
  }

  function TrimAll(parts: seq<string>): (r: seq<string>)
    ensures |r| == |parts| && forall i :: 0 <= i < |parts| ==> r[i] == Trim(parts[i])
  {
    seq(|parts|, i requires 0 <= i < |parts| => Trim(parts[i]))
  }

  /** The non-empty strings, in order (`filter(t => t)`). */
  function NonEmpty(parts: seq<string>): (r: seq<string>)
    ensures |r| <= |parts|
  {
    if parts == [] then []
    else (if parts[0] != [] then [parts[0]] else []) + NonEmpty(parts[1..])
  }

  lemma NonEmptyAppend(a: seq<string>, b: seq<string>)
    ensures NonEmpty(a + b) == NonEmpty(a) + NonEmpty(b)
  {
    if a != [] {
      assert (a + b)[1..] == a[1..] + b;
      NonEmptyAppend(a[1..], b);
    } else {
      assert a + b == b;
    }
  }

  /** Only non-empty strings of the list stay. */
  lemma {:induction false} NonEmptyMembers(parts: seq<string>)
    ensures forall t :: t in NonEmpty(parts) <==> t in parts && t != []
  {
    if parts != [] {
      NonEmptyMembers(parts[1..]);
      assert parts == [parts[0]] + parts[1..];
    }
  }

  /** `tags.split(',').map(t => t.trim()).filter(t => t)`. */
  function ParseTags(s: string): seq<string>
  {
    NonEmpty(TrimAll(Split(s, ',')))
  }

  /** Every parsed tag is non-empty, trimmed and free of commas. */
  lemma ParseTagsClean(s: string)
    ensures forall i :: 0 <= i < |ParseTags(s)| ==> CleanTag(ParseTags(s)[i])
  {
    var pieces := Split(s, ',');
    var trimmed := TrimAll(pieces);
    NonEmptyMembers(trimmed);
    forall i | 0 <= i < |ParseTags(s)| ensures CleanTag(ParseTags(s)[i]) {
      var t := ParseTags(s)[i];
      assert t in trimmed;
      var k :| 0 <= k < |trimmed| && trimmed[k] == t;
      TrimKeepsOut(pieces[k], ',');
    }
  }

  /** `tags.join(', ')`. */
  function JoinTags(tags: seq<string>): string
  {
    Join(tags, ", ")
  }

  /** Parsing keeps the order of the comma-separated pieces: the tags of
      `a,b` are the tags of `a` followed by those of `b`. */
  lemma ParseTagsAppend(a: string, b: string)
    requires ',' !in a
    ensures ParseTags(a + "," + b) == ParseTags(a) + ParseTags(b)
  {
    assert a + "," + b == a + [','] + b;
    SplitAfter(a, ',', b);
    assert Split(a, ',') == [a];
    assert TrimAll([a] + Split(b, ',')) == TrimAll([a]) + TrimAll(Split(b, ','));
    NonEmptyAppend(TrimAll([a]), TrimAll(Split(b, ',')));
  }

  /** A tag list shown joined by ", " and parsed again comes back unchanged
      when every tag is non-empty, trimmed and free of commas. */
  lemma JoinParseRoundTrip(tags: seq<string>)
    requires forall i :: 0 <= i < |tags| ==> CleanTag(tags[i])
    ensures ParseTags(JoinTags(tags)) == tags
  {
    ParseSpacedJoin("", tags);
    assert "" + Join(tags, ", ") == JoinTags(tags);
  }

  /** A comma-free text is one piece. */
  lemma ParseCommaFree(v: string)
    requires ',' !in v
    ensures ParseTags(v) == if Trim(v) == [] then [] else [Trim(v)]
  {
    assert Split(v, ',') == [v];
    assert TrimAll([v]) == [Trim(v)];
    assert NonEmpty([Trim(v)]) == (if Trim(v) != [] then [Trim(v)] else []) + NonEmpty([]);
  }

  /** White space before a single tag is dropped. */
  lemma ParseOneTag(w: string, t: string)
    requires AllSpace(w) && ',' !in w && CleanTag(t)
    ensures ParseTags(w + t) == [t]
  {
    assert ',' !in w + t;
    ParseCommaFree(w + t);
    TrimSpacePrefix(w, t);
  }

  lemma {:induction false} ParseSpacedJoin(w: string, tags: seq<string>)
    requires AllSpace(w) && ',' !in w
    requires forall i :: 0 <= i < |tags| ==> CleanTag(tags[i])
    ensures ParseTags(w + Join(tags, ", ")) == tags
    decreases |tags|
  {
    if tags == [] {
      assert w + Join(tags, ", ") == w;
      ParseCommaFree(w);
      TrimEmptyIff(w);
    } else if |tags| == 1 {
      assert w + Join(tags, ", ") == w + tags[0];
      ParseOneTag(w, tags[0]);
    } else {
      assert AllSpace(" ") && ',' !in " ";
      ParseSpacedJoin(" ", tags[1..]);
      ParseJoinStep(w, tags);
    }
  }

  /** The first tag, then the rest after ", ": parsing splits at the comma. */
  lemma ParseJoinStep(w: string, tags: seq<string>)
    requires AllSpace(w) && ',' !in w && |tags| >= 2 && CleanTag(tags[0])
    requires ParseTags(" " + Join(tags[1..], ", ")) == tags[1..]
    ensures ParseTags(w + Join(tags, ", ")) == tags
  {
    var head := w + tags[0];
    var rest := " " + Join(tags[1..], ", ");
    assert Join(tags, ", ") == tags[0] + ", " + Join(tags[1..], ", ");
    SplitAtComma(w, tags[0], Join(tags[1..], ", "));
    assert ',' !in tags[0];
    assert ',' !in head;
    ParseTagsAppend(head, rest);
    ParseOneTag(w, tags[0]);
    assert [tags[0]] + tags[1..] == tags;
  }

  lemma SplitAtComma(w: string, a: string, j: string)
    ensures w + (a + ", " + j) == (w + a) + "," + (" " + j)
  {
  }
}
