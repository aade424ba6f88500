/** The `PostEntity`, `TagEntity` and `CategoryEntity` records of the
    backend, the static status default and the tag-name projection. A Java
    `Set` of tags is modelled as the sequence in which it is iterated. */
module PostEntity {
  import opened Wrappers
  import opened UserEntity

  datatype PostStatus = DRAFT | PUBLISHED | SCHEDULED | DELETED

  datatype Tag = Tag(id: Id, name: string, slug: string)

  datatype Category = Category(id: Id, name: string, slug: string)

  datatype Post = Post(
    id: Id,
    title: string,
    slug: string,
    content: string,
    excerpt: Option<string>,
    featuredImage: Option<string>,
    status: PostStatus,
    publishedAt: Option<int>,
    viewCount: int,
    tags: Option<seq<Tag>>,
    categories: seq<Category>,
    author: Option<User>)

  /** A freshly constructed post with its mandatory columns set: status
      DRAFT, no publication time, view count 0, and empty tag and category
      collections. */
  function NewPost(id: Id, title: string, slug: string, content: string, author: Option<User>): (p: Post)
    ensures p.id == id && p.title == title && p.slug == slug && p.content == content && p.author == author
    ensures p.status == DRAFT && p.publishedAt.None? && p.viewCount == 0
    ensures p.tags == Some([]) && p.categories == []
    ensures p.excerpt.None? && p.featuredImage.None?
  {
    Post(id, title, slug, content, None, None, DRAFT, None, 0, Some([]), [], author)
  }

  /** `getStatus`: a missing status means DRAFT, a present one is kept. */
  function GetStatus(status: Option<PostStatus>): (r: PostStatus)
    ensures status.None? ==> r == DRAFT
    ensures status.Some? ==> r == status.value
  {
    if status.Some? then status.value else DRAFT
  }

  /** Applying the default twice changes nothing. */
  lemma GetStatusIdempotent(status: Option<PostStatus>)
    ensures GetStatus(Some(GetStatus(status))) == GetStatus(status)
  {
  }

  /** `getTagNames`: null for a null tag collection, otherwise exactly one
      name per tag, in iteration order. */
  function TagNames(tags: Option<seq<Tag>>): (r: Option<seq<string>>)
    ensures r.None? <==> tags.None?
    ensures tags.Some? ==> |r.value| == |tags.value|
    ensures tags.Some? ==> forall i :: 0 <= i < |tags.value| ==> r.value[i] == tags.value[i].name
  {
    match tags
    case None => None
    case Some(ts) => Some(Names(ts))
  }

  function Names(ts: seq<Tag>): (r: seq<string>)
    ensures |r| == |ts|
    ensures forall i :: 0 <= i < |ts| ==> r[i] == ts[i].name
  {
    if ts == [] then [] else [ts[0].name] + Names(ts[1..])
  }
}
