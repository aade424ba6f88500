/** The edit-post page: the form filled from the stored post, plain field
    edits, the toolbar insertion, the submit guard, and the preview's
    recognition of GitHub-style alert blockquotes (`> [!NOTE] ...`). */
module EditPost {
  import opened Wrappers
  import opened Text
  import opened EditorText
  import opened FrontendTypes
  import opened PostEditor

  /** The form filled from a loaded post: the tags joined by ", ", the first
      category's id as text (or '' without one), absent texts as ''. */
  function FormOf(p: Post): (r: PostForm)
    ensures r.title == p.title && r.slug == p.slug && r.content == p.content
    ensures r.excerpt == (if p.excerpt.Some? then p.excerpt.value else "")
    ensures r.featuredImage == (if p.featuredImage.Some? then p.featuredImage.value else "")
    ensures r.tags == JoinTags(p.tags)
    ensures r.categoryId == "" <==> p.categories.None? || p.categories.value == []
  {
    var categoryId := if p.categories.Some? && p.categories.value != [] then IntToString(p.categories.value[0].id) else "";
    IntToStringNonEmpty(if p.categories.Some? && p.categories.value != [] then p.categories.value[0].id else 0);
    PostForm(p.title, p.slug, if p.excerpt.Some? then p.excerpt.value else "", p.content,
             JoinTags(p.tags), categoryId, if p.featuredImage.Some? then p.featuredImage.value else "")
  }

  lemma IntToStringNonEmpty(i: int)
    ensures IntToString(i) != ""
  {
    if i < 0 {
      assert IntToString(i) == "-" + NatToString(-i);
    } else {
      assert |NatToString(i)| > 0;
    }
  }

  /** Saving a loaded post without edits sends back its texts and tags (when
      every tag is non-empty, trimmed and comma-free) and its first category,
      published, and without its featured image; a post without categories
      cannot be saved without choosing one. */
  lemma SaveUnedited(p: Post)
    requires forall i :: 0 <= i < |p.tags| ==> CleanTag(p.tags[i])
    ensures Payload(FormOf(p)).None? <==> p.categories.None? || p.categories.value == []
    ensures Payload(FormOf(p)).Some? ==>
              var q := Payload(FormOf(p)).value;
              q.title == p.title && q.slug == p.slug && q.content == p.content && q.tags == p.tags &&
              q.categoryId == IntToString(p.categories.value[0].id) &&
              q.status == "PUBLISHED" && q.featuredImage == ""
  {
    JoinParseRoundTrip(p.tags);
  }

  /* ---------- Alert blockquotes ---------- */

  datatype AlertKind = Note | Tip | Important | Warning | Caution

  function KindName(k: AlertKind): string
  {
    match k
    case Note => "NOTE"
    case Tip => "TIP"
    case Important => "IMPORTANT"
    case Warning => "WARNING"
    case Caution => "CAUTION"
  }

  /** The heading shown in the alert box. */
  function AlertTitle(k: AlertKind): string
  {
    match k
    case Note => "Note"
    case Tip => "Tip"
    case Important => "Important"
    case Warning => "Warning"
    case Caution => "Caution"
  }

  /** The marker that opens an alert, such as `[!NOTE]`. */
  function Marker(k: AlertKind): string
  {
    match k
    case Note => "[!NOTE]"
    case Tip => "[!TIP]"
    case Important => "[!IMPORTANT]"
    case Warning => "[!WARNING]"
    case Caution => "[!CAUTION]"
  }

  function MarkerAtStart(t: string): (r: Option<AlertKind>)
    ensures r.Some? ==> StartsWith(t, Marker(r.value))
    ensures r.None? ==> forall k :: !StartsWith(t, Marker(k))
  {
    if StartsWith(t, Marker(Note)) then Some(Note)
    else if StartsWith(t, Marker(Tip)) then Some(Tip)
    else if StartsWith(t, Marker(Important)) then Some(Important)
    else if StartsWith(t, Marker(Warning)) then Some(Warning)
    else if StartsWith(t, Marker(Caution)) then Some(Caution)
    else
      assert forall k :: Marker(k) == Marker(Note) || Marker(k) == Marker(Tip) || Marker(k) == Marker(Important) ||
                         Marker(k) == Marker(Warning) || Marker(k) == Marker(Caution);
      None
  }

  /** `/^\s*\[!(NOTE|TIP|IMPORTANT|WARNING|CAUTION)\]/`: the kind whose
      marker follows the leading white space. */
  function AlertOf(s: string): Option<AlertKind>
  {
    MarkerAtStart(TrimStart(s))
  }

  /** The replace of the same pattern followed by `\s*`: the leading white
      space, the marker and the white space after it are removed. */
  function StripMarker(s: string): string
  {
    var k := AlertOf(s);
    if k.Some? then TrimStart(TrimStart(s)[|Marker(k.value)|..]) else s
  }

  /** No marker starts another: a text opens at most one kind of alert. */
  lemma MarkersDistinct(t: string, k1: AlertKind, k2: AlertKind)
    requires StartsWith(t, Marker(k1)) && StartsWith(t, Marker(k2))
    ensures k1 == k2
  {
    assert t[2] == Marker(k1)[2] == Marker(k2)[2];
  }

  lemma TrimStartSpacePrefix(w: string, s: string)
    requires AllSpace(w) && (s == [] || !IsSpace(s[0]))
    ensures TrimStart(w + s) == s
  {
    if w != [] {
      assert (w + s)[1..] == w[1..] + s;
      TrimStartSpacePrefix(w[1..], s);
    } else {
      assert w + s == s;
    }
  }

  /** White space, a marker, then any text: recognised as that kind, and
      stripping leaves the text without its leading white space. */
  lemma MarkerRecognised(w: string, k: AlertKind, rest: string)
    requires AllSpace(w)
    ensures AlertOf(w + Marker(k) + rest) == Some(k)
    ensures StripMarker(w + Marker(k) + rest) == TrimStart(rest)
  {
    var t := Marker(k) + rest;
    assert w + Marker(k) + rest == w + t;
    assert t[0] == '[';
    TrimStartSpacePrefix(w, t);
    assert t[..|Marker(k)|] == Marker(k);
    var found := MarkerAtStart(t);
    MarkersDistinct(t, found.value, k);
    assert t[|Marker(k)|..] == rest;
  }

  /** `s` is white space `w`, the marker of `k`, and `rest`. */
  predicate MarkedAs(s: string, k: AlertKind, w: string, rest: string)
  {
    AllSpace(w) && s == w + Marker(k) + rest
  }

  /** Conversely, a recognised text is white space, the marker, and the
      rest. */
  lemma RecognisedHasMarker(s: string)
    requires AlertOf(s).Some?
    ensures exists w, rest :: MarkedAs(s, AlertOf(s).value, w, rest)
  {
    var k := AlertOf(s).value;
    assert StartsWith(TrimStart(s), Marker(k));
    MarkedFromParts(s, k);
  }

  lemma MarkedFromParts(s: string, k: AlertKind)
    requires StartsWith(TrimStart(s), Marker(k))
    ensures exists w, rest :: MarkedAs(s, k, w, rest)
  {
    var t := TrimStart(s);
    var m := Marker(k);
    var w := s[..|s| - |t|];
    TrimStartSplit(s);
    PrefixSplit(t, m);
    Concat3(s, w, t, m, t[|m|..]);
    assert MarkedAs(s, k, w, t[|m|..]);
  }

  lemma TrimStartSplit(s: string)
    ensures AllSpace(s[..|s| - |TrimStart(s)|])
    ensures s == s[..|s| - |TrimStart(s)|] + TrimStart(s)
  {
  }

  lemma PrefixSplit(t: string, m: string)
    requires StartsWith(t, m)
    ensures t == m + t[|m|..]
  {
    assert t == t[..|m|] + t[|m|..];
  }

  lemma Concat3(s: string, w: string, t: string, m: string, rest: string)
    requires s == w + t && t == m + rest
    ensures s == w + m + rest
  {
  }

  /** A child of a paragraph: text, or an element rendered by the markdown
      renderer. */
  datatype Child = TextChild(text: string) | ElementChild(tag: string)

  /** `String(child)`: an element object prints as "[object Object]". */
  function ChildString(c: Child): string
  {
    match c
    case TextChild(s) => s
    case ElementChild(_) => "[object Object]"
  }

  /** A paragraph's children: a single child or an array of them. */
  datatype Content = Single(child: Child) | Many(children: seq<Child>)

  /** A child of the blockquote; `LineBreak` is a "\n" text node. */
  datatype Block = LineBreak | Paragraph(content: Content) | OtherBlock(tag: string)

  /** What the blockquote renders as. */
  datatype Rendered = AlertBox(kind: AlertKind, body: seq<Block>) | Quote(children: seq<Block>)

  /** A truthy `children`: anything but the empty string. */
  predicate Present(c: Content)
  {
    c != Single(TextChild(""))
  }

  /** The paragraph's text: array children are printed and joined. */
  function ContentText(c: Content): string
  {
    match c
    case Single(child) => ChildString(child)
    case Many(cs) => JoinStrings(cs)
  }

  function JoinStrings(cs: seq<Child>): string
  {
    if cs == [] then "" else ChildString(cs[0]) + JoinStrings(cs[1..])
  }

  function WithoutLineBreaks(bs: seq<Block>): (r: seq<Block>)
    ensures |r| <= |bs|
  {
    if bs == [] then []
    else (if bs[0] == LineBreak then [] else [bs[0]]) + WithoutLineBreaks(bs[1..])
  }

  /** Only the line breaks go. */
  lemma {:induction false} WithoutLineBreaksMembers(bs: seq<Block>)
    ensures forall b :: b in WithoutLineBreaks(bs) <==> b in bs && b != LineBreak
  {
    if bs != [] {
      WithoutLineBreaksMembers(bs[1..]);
      assert bs == [bs[0]] + bs[1..];
    }
  }

  /** A text child that opens an alert by itself. */
  predicate OpensAlert(c: Child)
  {
    c.TextChild? && AlertOf(c.text).Some?
  }

  /** The position of the first text child that opens an alert, or -1. */
  function FirstMarked(cs: seq<Child>): (r: int)
    ensures -1 <= r < |cs|
    ensures r >= 0 ==> OpensAlert(cs[r]) && forall i :: 0 <= i < r ==> !OpensAlert(cs[i])
    ensures r < 0 ==> forall i :: 0 <= i < |cs| ==> !OpensAlert(cs[i])
  {
    if cs == [] then -1
    else if OpensAlert(cs[0]) then 0
    else
      var i := FirstMarked(cs[1..]);
      assert forall j :: 1 <= j < |cs| ==> cs[j] == cs[1..][j - 1];
      if i < 0 then -1 else i + 1
  }

  /** The first paragraph with its marker stripped: in an array, only the
      first text child that opens an alert by itself. */
  function StripContent(c: Content): Content
  {
    match c
    case Single(TextChild(s)) => Single(TextChild(StripMarker(s)))
    case Single(e) => c
    case Many(cs) =>
      var i := FirstMarked(cs);
      if i < 0 then c else Many(cs[i := TextChild(StripMarker(cs[i].text))])
  }

  /** The renderer once the children to inspect are chosen: an alert box
      when the first of them is a paragraph whose text opens an alert, the
      plain quote of all the children otherwise. */
  function RenderFrom(children: seq<Block>, content: seq<Block>): Rendered
  {
    if content != [] && content[0].Paragraph? && Present(content[0].content)
       && AlertOf(ContentText(content[0].content)).Some?
    then AlertBox(AlertOf(ContentText(content[0].content)).value,
                  [Paragraph(StripContent(content[0].content))] + content[1..])
    else Quote(children)
  }

  /** `child?.type`: a text node such as "\n" is a string and has no type;
      a paragraph is a `p` element. */
  function TypeOf(b: Block): Option<string>
  {
    match b
    case LineBreak => None
    case Paragraph(_) => Some("p")
    case OtherBlock(tag) => Some(tag)
  }

  /** The filter as written: it keeps every child whose type is not "\n". */
  function TypeFilter(bs: seq<Block>): (r: seq<Block>)
    ensures |r| <= |bs|
  {
    if bs == [] then []
    else (if TypeOf(bs[0]) != Some("\n") then [bs[0]] else []) + TypeFilter(bs[1..])
  }

  /** No element is named "\n", so the filter as written keeps every child,
      the line breaks included. */
  lemma {:induction false} TypeFilterKeepsAll(bs: seq<Block>)
    requires forall i :: 0 <= i < |bs| ==> bs[i] != OtherBlock("\n")
    ensures TypeFilter(bs) == bs
  {
    if bs != [] {
      TypeFilterKeepsAll(bs[1..]);
      assert [bs[0]] + bs[1..] == bs;
    }
  }

  /** The blockquote renderer as written: the children it inspects are those
      of the type filter. */
  function RenderBlockquoteAsWritten(children: seq<Block>): Rendered
  {
    RenderFrom(children, TypeFilter(children))
  }

  /** As written, a quote whose first child is a line break is always a
      plain quote, whatever paragraph follows. */
  lemma AsWrittenLeadingBreakIsQuote(children: seq<Block>)
    requires children != [] && children[0] == LineBreak
    ensures RenderBlockquoteAsWritten(children) == Quote(children)
  {
    var content := TypeFilter(children);
    assert content == [LineBreak] + TypeFilter(children[1..]);
  }

  /** The blockquote renderer of the preview, with the line breaks dropped
      before the first child is inspected. */
  function RenderBlockquote(children: seq<Block>): Rendered
  {
    RenderFrom(children, WithoutLineBreaks(children))
  }

  /** On a quote without line breaks, the renderer as written and the
      corrected one agree. */
  lemma {:induction false} RenderersAgreeWithoutBreaks(children: seq<Block>)
    requires forall i :: 0 <= i < |children| ==> children[i] != LineBreak && children[i] != OtherBlock("\n")
    ensures RenderBlockquoteAsWritten(children) == RenderBlockquote(children)
  {
    TypeFilterKeepsAll(children);
    WithoutLineBreaksAbsent(children);
  }

  lemma {:induction false} WithoutLineBreaksAbsent(bs: seq<Block>)
    requires forall i :: 0 <= i < |bs| ==> bs[i] != LineBreak
    ensures WithoutLineBreaks(bs) == bs
  {
    if bs != [] {
      WithoutLineBreaksAbsent(bs[1..]);
      assert [bs[0]] + bs[1..] == bs;
    }
  }

  /** The markdown renderer puts a line break before the first paragraph
      of a quote. On such a quote whose paragraph opens with a marker, the
      renderer as written gives a plain quote, and the corrected one gives
      the alert box of that kind. */
  lemma LeadingBreakDiscrepancy(w: string, k: AlertKind, rest: string, others: seq<Block>)
    requires AllSpace(w)
    ensures var children := [LineBreak, Paragraph(Single(TextChild(w + Marker(k) + rest)))] + others;
            RenderBlockquoteAsWritten(children) == Quote(children) &&
            RenderBlockquote(children) ==
              AlertBox(k, [Paragraph(Single(TextChild(TrimStart(rest))))] + WithoutLineBreaks(others))
  {
    var p := Paragraph(Single(TextChild(w + Marker(k) + rest)));
    var children := [LineBreak, p] + others;
    AsWrittenLeadingBreakIsQuote(children);
    assert children[1..] == [p] + others;
    assert WithoutLineBreaks(children) == WithoutLineBreaks([p] + others);
    AlertBlockquote(w, k, rest, others);
  }



  /** A blockquote opening with a paragraph `[!KIND] text` becomes an alert
      box of that kind holding `text` and the remaining blocks. */
  lemma AlertBlockquote(w: string, k: AlertKind, rest: string, others: seq<Block>)
    requires AllSpace(w)
    ensures RenderBlockquote([Paragraph(Single(TextChild(w + Marker(k) + rest)))] + others) ==
            AlertBox(k, [Paragraph(Single(TextChild(TrimStart(rest))))] + WithoutLineBreaks(others))
  {
    var s := w + Marker(k) + rest;
    MarkerRecognised(w, k, rest);
    assert s != "" by { assert |s| >= |Marker(k)| > 0; }
    RenderOpeningParagraph(s, others);
  }

  /** A blockquote whose first block is a paragraph of one text: an alert
      when that text is recognised, the quote otherwise. */
  lemma RenderOpeningParagraph(s: string, others: seq<Block>)
    requires s != ""
    ensures RenderBlockquote([Paragraph(Single(TextChild(s)))] + others) ==
            if AlertOf(s).Some? then AlertBox(AlertOf(s).value, [Paragraph(Single(TextChild(StripMarker(s))))] + WithoutLineBreaks(others))
            else Quote([Paragraph(Single(TextChild(s)))] + others)
  {
    var bs := [Paragraph(Single(TextChild(s)))] + others;
    assert bs[1..] == others;
    var content := WithoutLineBreaks(bs);
    assert content == [bs[0]] + WithoutLineBreaks(bs[1..]);
    assert content[1..] == WithoutLineBreaks(others);
  }

  /** A blockquote whose first paragraph does not open with a marker is
      rendered unchanged as a quote. */
  lemma PlainBlockquote(children: seq<Block>)
    requires forall b :: b in children && b.Paragraph? ==> AlertOf(ContentText(b.content)).None?
    ensures RenderBlockquote(children) == Quote(children)
  {
    WithoutLineBreaksMembers(children);
  }

  /** Stripping touches one child at most: an array keeps its length and
      every other child. */
  lemma StripTouchesOneChild(cs: seq<Child>)
    ensures StripContent(Many(cs)).Many?
    ensures |StripContent(Many(cs)).children| == |cs|
    ensures forall i :: 0 <= i < |cs| && i != FirstMarked(cs) ==> StripContent(Many(cs)).children[i] == cs[i]
  {
  }

  /** The page state. */
  class EditPostPage {
    var form: PostForm
    var postId: string
    var loading: bool
    var fetching: bool

    constructor ()
      ensures form == EMPTY_FORM && postId == "" && !loading && fetching
    {
      form := EMPTY_FORM;
      postId := "";
      loading := false;
      fetching := true;
    }

    /** The answer to the initial load: the post fills the form; a failure
        (or a missing slug in the address) leaves the page, reported as
        `leave`. Fetching ends either way. */
    method InitialDataAnswered(post: Option<Post>) returns (leave: bool)
      modifies this
      ensures leave <==> post.None?
      ensures post.Some? ==> form == FormOf(post.value) && postId == post.value.id
      ensures post.None? ==> form == old(form) && postId == old(postId)
      ensures !fetching && loading == old(loading)
    {
      if post.Some? {
        postId := post.value.id;
        form := FormOf(post.value);
      }
      leave := post.None?;
      fetching := false;
    }

    /** `handleChange`: only the named field changes; the slug is never
        derived from the title here. */
    method HandleChange(field: Field, value: string)
      modifies this
      ensures form == Set(old(form), field, value) && loading == old(loading) && postId == old(postId)
    {
      form := Set(form, field, value);
    }

    method SelectCategory(id: string)
      modifies this
      ensures form == Set(old(form), CategoryId, id) && loading == old(loading)
    {
      form := Set(form, CategoryId, id);
    }

    /** The toolbar's `handleInsert`, as on the new-post page. */
    method HandleInsert(selection: Option<(int, int)>, prefix: string, suffix: string) returns (cursor: Option<int>)
      modifies this
      ensures selection.None? ==> form == old(form) && cursor == None
      ensures selection.Some? ==>
                var ins := InsertAround(old(form).content, selection.value.0, selection.value.1, prefix, suffix);
                form == Set(old(form), Content, ins.text) && cursor == Some(ins.cursor)
      ensures loading == old(loading) && postId == old(postId)
    {
      if selection.None? {
        cursor := None;
      } else {
        var ins := InsertAround(form.content, selection.value.0, selection.value.1, prefix, suffix);
        form := Set(form, Content, ins.text);
        cursor := Some(ins.cursor);
      }
    }

    /** The save button: the update request for `postId`, if any. */
    method Submit() returns (request: Option<(string, PostPayload)>)
      modifies this
      ensures Payload(form).None? ==> request == None
      ensures Payload(form).Some? ==> request == Some((postId, Payload(form).value))
      ensures loading == (request.Some? || old(loading)) && form == old(form)
    {
      var f := form;
      var body := Payload(f);
      if body.None? {
        request := None;
      } else {
        request := Some((postId, body.value));
        loading := true;
      }
      assert form == f;
    }

    method SubmitSettled()
      modifies this
      ensures !loading && form == old(form)
    {
      loading := false;
    }

    method CategoryDeleted(id: string)
      modifies this
      ensures form == AfterCategoryDeleted(old(form), id) && loading == old(loading)
    {
      form := AfterCategoryDeleted(form, id);
    }
  }
}
