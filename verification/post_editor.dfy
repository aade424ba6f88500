/** What the new-post and edit-post pages share: the form, the request body
    built from it on submit, and the small category manager beside it. */
module PostEditor {
  import opened Wrappers
  import opened Text
  import opened EditorText

  /** The named inputs of the form. */
  datatype Field = Title | Slug | Excerpt | Content | Tags | CategoryId | FeaturedImage

  /** The form state; the tags are the raw text of the tags input. */
  datatype PostForm = PostForm(
    title: string,
    slug: string,
    excerpt: string,
    content: string,
    tags: string,
    categoryId: string,
    featuredImage: string)

  const EMPTY_FORM: PostForm := PostForm("", "", "", "", "", "", "")

  function Get(form: PostForm, field: Field): string
  {
    match field
    case Title => form.title
    case Slug => form.slug
    case Excerpt => form.excerpt
    case Content => form.content
    case Tags => form.tags
    case CategoryId => form.categoryId
    case FeaturedImage => form.featuredImage
  }

  /** `{ ...prev, [name]: value }`: the named field takes the value and every
      other field keeps its own. */
  function Set(form: PostForm, field: Field, value: string): (r: PostForm)
    ensures Get(r, field) == value
    ensures forall other :: other != field ==> Get(r, other) == Get(form, other)
  {
    match field
    case Title => form.(title := value)
    case Slug => form.(slug := value)
    case Excerpt => form.(excerpt := value)
    case Content => form.(content := value)
    case Tags => form.(tags := value)
    case CategoryId => form.(categoryId := value)
    case FeaturedImage => form.(featuredImage := value)
  }

  /** The status every submitted post gets. */
  const PUBLISHED: string := "PUBLISHED"

  /** The body of the create and update requests. */
  datatype PostPayload = PostPayload(
    title: string,
    slug: string,
    excerpt: string,
    content: string,
    tags: seq<string>,
    categoryId: string,
    featuredImage: string,
    status: string)

  /** The request a submit sends: none without a category; otherwise the
      form with its tags parsed, the status forced to PUBLISHED and the
      featured image forced empty. */
  function Payload(form: PostForm): Option<PostPayload>
  {
    if form.categoryId == "" then None
    else Some(PostPayload(form.title, form.slug, form.excerpt, form.content, ParseTags(form.tags),
                          form.categoryId, "", PUBLISHED))
  }

  /** No category, no request. A request copies the text fields, carries the
      cleaned tag list, is always PUBLISHED and never has a featured image,
      whatever the form holds. */
  lemma PayloadRules(form: PostForm)
    ensures Payload(form).None? <==> form.categoryId == ""
    ensures Payload(form).Some? ==>
              var p := Payload(form).value;
              p.title == form.title && p.slug == form.slug && p.excerpt == form.excerpt &&
              p.content == form.content && p.categoryId == form.categoryId &&
              p.status == "PUBLISHED" && p.featuredImage == "" &&
              p.tags == ParseTags(form.tags) &&
              forall i :: 0 <= i < |p.tags| ==> CleanTag(p.tags[i])
  {
    ParseTagsClean(form.tags);
  }

  /** Tags typed as a list separated by ", " reach the request unchanged. */
  lemma PayloadTagsRoundTrip(form: PostForm, tags: seq<string>)
    requires form.categoryId != "" && form.tags == JoinTags(tags)
    requires forall i :: 0 <= i < |tags| ==> CleanTag(tags[i])
    ensures Payload(form).Some? && Payload(form).value.tags == tags
  {
    JoinParseRoundTrip(tags);
  }

  /** Deleting a category empties the form's category when it was the
      selected one. */
  function AfterCategoryDeleted(form: PostForm, id: string): (r: PostForm)
    ensures r.categoryId == (if form.categoryId == id then "" else form.categoryId)
    ensures forall f :: f != CategoryId ==> Get(r, f) == Get(form, f)
  {
    if form.categoryId == id then Set(form, CategoryId, "") else form
  }

  /** After a delete, the form never points at the deleted category. */
  lemma DeletedCategoryNotSelected(form: PostForm, id: string)
    requires id != ""
    ensures AfterCategoryDeleted(form, id).categoryId != id
  {
  }

  /* ---------- The category manager ---------- */

  datatype CategoryForm = CategoryForm(name: string, slug: string, description: string)

  const EMPTY_CATEGORY_FORM: CategoryForm := CategoryForm("", "", "")

  /** Typing a name also sets the slug from it. */
  function CategoryNameTyped(f: CategoryForm, name: string): (r: CategoryForm)
    ensures r.name == name && r.description == f.description
    ensures r.slug == CategorySlug(name) && DashSeparated(r.slug)
  {
    f.(name := name, slug := CategorySlug(name))
  }

  /** A category as the manager lists it. */
  datatype ManagedCategory = ManagedCategory(id: string, name: string, slug: string, description: Option<string>)

  /** "Edit" fills the form with the category, a missing description as ''. */
  function CategoryFormOf(c: ManagedCategory): (r: CategoryForm)
    ensures r.name == c.name && r.slug == c.slug
    ensures r.description == (if c.description.Some? then c.description.value else "")
  {
    CategoryForm(c.name, c.slug, if c.description.Some? then c.description.value else "")
  }

  /** The category manager: its form, the category being edited, and
      whether it is shown. */
  class CategoryManager {
    var form: CategoryForm
    var editing: Option<ManagedCategory>
    var shown: bool

    constructor ()
      ensures form == EMPTY_CATEGORY_FORM && editing == None && !shown
    {
      form := EMPTY_CATEGORY_FORM;
      editing := None;
      shown := false;
    }

    method Toggle()
      modifies this
      ensures shown == !old(shown) && form == old(form) && editing == old(editing)
    {
      shown := !shown;
    }

    method TypeName(name: string)
      modifies this
      ensures form == CategoryNameTyped(old(form), name) && editing == old(editing)
    {
      form := CategoryNameTyped(form, name);
    }

    method TypeDescription(description: string)
      modifies this
      ensures form == old(form).(description := description) && editing == old(editing)
    {
      form := form.(description := description);
    }

    method StartEdit(c: ManagedCategory)
      modifies this
      ensures form == CategoryFormOf(c) && editing == Some(c)
    {
      form := CategoryFormOf(c);
      editing := Some(c);
    }

    /** The save button: an update of the edited category, else a create,
        both with the form as body. Returns the id to update, if any. */
    method Save() returns (updateId: Option<string>, body: CategoryForm)
      ensures updateId == (if editing.Some? then Some(editing.value.id) else None)
      ensures body == form
    {
      updateId := if editing.Some? then Some(editing.value.id) else None;
      body := form;
    }

    /** After a successful save the form empties and editing ends; a failed
        save keeps both. */
    method SaveAnswered(succeeded: bool)
      modifies this
      ensures succeeded ==> form == EMPTY_CATEGORY_FORM && editing == None
      ensures !succeeded ==> form == old(form) && editing == old(editing)
      ensures shown == old(shown)
    {
      if succeeded {
        form := EMPTY_CATEGORY_FORM;
        editing := None;
      }
    }
  }
}
