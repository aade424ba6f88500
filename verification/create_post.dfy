/** The new-post page: the form with its slug suggestion, the toolbar
    insertion into the content, the submit guard and the reset of a deleted
    category. */
module CreatePost {
  import opened Wrappers
  import opened Text
  import opened EditorText
  import opened PostEditor

  /** `handleChange`: the named field takes the value; the slug is
      generated from a new title while the slug is still empty, typed
      verbatim into the slug field, and otherwise kept. */
  function AfterChange(prev: PostForm, field: Field, value: string): PostForm
  {
    var slug := if field == Title && prev.slug == "" then Slugify(value)
                else if field == Slug then value
                else prev.slug;
    Set(prev, field, value).(slug := slug)
  }

  /** The named field always takes the value; no field but the slug and
      the named one changes; the slug follows the three-way rule. */
  lemma ChangeRules(prev: PostForm, field: Field, value: string)
    ensures Get(AfterChange(prev, field, value), field) == value
    ensures forall f :: f != field && f != Slug ==> Get(AfterChange(prev, field, value), f) == Get(prev, f)
    ensures field == Title && prev.slug == "" ==> AfterChange(prev, field, value).slug == Slugify(value)
    ensures field == Title && prev.slug != "" ==> AfterChange(prev, field, value).slug == prev.slug
    ensures field != Title && field != Slug ==> AfterChange(prev, field, value).slug == prev.slug
  {
    var r := AfterChange(prev, field, value);
    forall f | f != field && f != Slug
      ensures Get(r, f) == Get(prev, f)
    {
      assert Get(r, f) == Get(Set(prev, field, value), f);
    }
  }

  /** A generated slug is a clean slug. */
  lemma GeneratedSlugIsClean(prev: PostForm, value: string)
    requires prev.slug == ""
    ensures DashSeparated(AfterChange(prev, Title, value).slug)
    ensures var s := AfterChange(prev, Title, value).slug; s == [] || (s[0] != '-' && s[|s| - 1] != '-')
  {
  }

  /** The form after the title input reports each of `titles` in turn, as
      it does while the title is typed. */
  function TypeTitle(form: PostForm, titles: seq<string>): PostForm
    decreases |titles|
  {
    if titles == [] then form else TypeTitle(AfterChange(form, Title, titles[0]), titles[1..])
  }

  /** Once the slug is non-empty, title edits never change it. */
  lemma {:induction false} TitleEditsKeepSlug(form: PostForm, titles: seq<string>)
    requires form.slug != ""
    ensures TypeTitle(form, titles).slug == form.slug
    ensures titles != [] ==> TypeTitle(form, titles).title == titles[|titles| - 1]
    decreases |titles|
  {
    if titles != [] {
      var next := AfterChange(form, Title, titles[0]);
      assert next.slug == form.slug && next.title == titles[0];
      TitleEditsKeepSlug(next, titles[1..]);
      if |titles| > 1 {
        assert titles[1..][|titles| - 2] == titles[|titles| - 1];
      }
    }
  }

  /** So typing a title letter by letter leaves the slug of the first
      keystroke: "a", then "ab", gives the slug "a". */
  lemma SlugOfFirstKeystroke()
    ensures TypeTitle(EMPTY_FORM, ["a", "ab"]).slug == "a"
    ensures TypeTitle(EMPTY_FORM, ["a", "ab"]).title == "ab"
  {
    assert Lower("a") == "a";
    assert DashRuns("a") == ['a'] + DashRuns("");
    assert Slugify("a") == "a";
    var first := AfterChange(EMPTY_FORM, Title, "a");
    assert first.slug == "a";
    TitleEditsKeepSlug(first, ["ab"]);
  }

  /** The page state. */
  class CreatePostPage {
    var form: PostForm
    var loading: bool

    constructor ()
      ensures form == EMPTY_FORM && !loading
    {
      form := EMPTY_FORM;
      loading := false;
    }

    method HandleChange(field: Field, value: string)
      modifies this
      ensures form == AfterChange(old(form), field, value) && loading == old(loading)
    {
      form := AfterChange(form, field, value);
    }

    /** The category dropdown's choice. */
    method SelectCategory(id: string)
      modifies this
      ensures form == Set(old(form), CategoryId, id) && loading == old(loading)
    {
      form := Set(form, CategoryId, id);
    }

    /** The toolbar's `handleInsert`: `selection` is the content textarea's
        selection, `None` when the textarea is not found (nothing happens).
        Returns where the cursor is put. */
    method HandleInsert(selection: Option<(int, int)>, prefix: string, suffix: string) returns (cursor: Option<int>)
      modifies this
      ensures selection.None? ==> form == old(form) && cursor == None
      ensures selection.Some? ==>
                var ins := InsertAround(old(form).content, selection.value.0, selection.value.1, prefix, suffix);
                form == Set(old(form), Content, ins.text) && cursor == Some(ins.cursor)
      ensures loading == old(loading)
    {
      if selection.None? {
        cursor := None;
      } else {
        var ins := InsertAround(form.content, selection.value.0, selection.value.1, prefix, suffix);
        form := Set(form, Content, ins.text);
        cursor := Some(ins.cursor);
      }
    }

    /** The submit button: the request to send, if any; sending one starts
        loading. */
    method Submit() returns (request: Option<PostPayload>)
      modifies this
      ensures request == Payload(form) && form == old(form)
      ensures loading == (request.Some? || old(loading))
    {
      request := Payload(form);
      if request.Some? {
        loading := true;
      }
    }

    /** The request's answer, success or failure: loading ends. */
    method SubmitSettled()
      modifies this
      ensures !loading && form == old(form)
    {
      loading := false;
    }

    /** A confirmed and successful delete of category `id`. */
    method CategoryDeleted(id: string)
      modifies this
      ensures form == AfterCategoryDeleted(old(form), id) && loading == old(loading)
    {
      form := AfterCategoryDeleted(form, id);
    }
  }
}
