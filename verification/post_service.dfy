/** `PostService`: creating and updating posts (with the tag
    find-or-create by slug), the filtered and paged post listing, and the
    post-to-response mapping. The posts, tags and users tables are
    sequences held by the service; record ids come from counters standing
    for generated UUIDs. */
module PostService {
  import opened Wrappers
  import opened Text
  import opened UserEntity
  import opened PostEntity
  import opened ExceptionHandler

  /** The body of a create or update request; absent JSON fields are
      `None`. */
  datatype CreatePostRequest = CreatePostRequest(
    title: string,
    slug: string,
    content: string,
    excerpt: Option<string>,
    featuredImage: Option<string>,
    status: Option<PostStatus>,
    tags: Option<seq<string>>,
    authorId: Option<Id>)

  datatype AuthorResponse = AuthorResponse(id: Id, username: string, fullName: string, avatarUrl: Option<string>)

  datatype PostResponse = PostResponse(
    id: Id,
    title: string,
    slug: string,
    content: string,
    excerpt: Option<string>,
    featuredImage: Option<string>,
    status: PostStatus,
    publishedAt: Option<int>,
    viewCount: int,
    author: Option<AuthorResponse>,
    tags: Option<seq<string>>)

  /** `mapToResponse`: the columns are copied; the author block is present
      exactly when the post has an author and carries the author's id,
      username and display name; the tag names are listed exactly when the
      tag collection is present. */
  function MapToResponse(p: Post): (r: PostResponse)
    ensures r.id == p.id && r.title == p.title && r.slug == p.slug && r.content == p.content
    ensures r.excerpt == p.excerpt && r.featuredImage == p.featuredImage
    ensures r.status == p.status && r.publishedAt == p.publishedAt && r.viewCount == p.viewCount
    ensures r.author.None? <==> p.author.None?
    ensures p.author.Some? ==>
              r.author.value.id == p.author.value.id && r.author.value.username == p.author.value.username &&
              r.author.value.fullName == FullName(p.author.value) && r.author.value.avatarUrl.None?
    ensures r.tags.None? <==> p.tags.None?
    ensures p.tags.Some? ==>
              |r.tags.value| == |p.tags.value| &&
              forall i :: 0 <= i < |p.tags.value| ==> r.tags.value[i] == p.tags.value[i].name
  {
    var author := if p.author.Some? then
                    var u := p.author.value;
                    Some(AuthorResponse(u.id, u.username, FullName(u), AvatarUrl(u)))
                  else None;
    PostResponse(p.id, p.title, p.slug, p.content, p.excerpt, p.featuredImage, p.status,
                 p.publishedAt, p.viewCount, author, TagNames(p.tags))
  }

  /* ---------- tag slugs and find-or-create ---------- */

  /** `s.replace(from, to)` for single characters: every occurrence. */
  function ReplaceChar(s: string, from: char, to: char): (r: string)
    ensures |r| == |s|
    ensures forall i :: 0 <= i < |s| ==> r[i] == (if s[i] == from then to else s[i])
  {
    seq(|s|, i requires 0 <= i < |s| => if s[i] == from then to else s[i])
  }

  /** The slug of a tag name: lower-cased, with every space replaced by
      '-'. */
  function TagSlug(name: string): (s: string)
    ensures |s| == |name|
    ensures forall i :: 0 <= i < |name| ==> s[i] == (if name[i] == ' ' then '-' else LowerChar(name[i]))
    ensures ' ' !in s
    ensures forall i :: 0 <= i < |s| ==> !('A' <= s[i] <= 'Z')
  {
    ReplaceChar(Lower(name), ' ', '-')
  }

  /** A slug is its own slug, so names that already are slugs keep them. */
  lemma TagSlugIdempotent(name: string)
    ensures TagSlug(TagSlug(name)) == TagSlug(name)
  {
  }

  /** No two tags of the table share a slug. */
  predicate UniqueTagSlugs(tags: seq<Tag>)
  {
    forall i, j :: 0 <= i < |tags| && 0 <= j < |tags| && tags[i].slug == tags[j].slug ==> i == j
  }

  /** The tags table as the service keeps it: unique slugs, and every id
      below the next one to hand out. */
  predicate TagsWellformed(tags: seq<Tag>, nextId: nat)
  {
    UniqueTagSlugs(tags) && forall t :: t in tags ==> t.id < nextId
  }

  predicate NoDuplicates<T(==)>(s: seq<T>)
  {
    forall i, j :: 0 <= i < j < |s| ==> s[i] != s[j]
  }

  /** `tagRepository.findBySlug`: the position of the tag with that slug,
      or -1. */
  function IndexOfSlug(tags: seq<Tag>, slug: string): (r: int)
    ensures -1 <= r < |tags|
    ensures r >= 0 ==> tags[r].slug == slug
    ensures r < 0 <==> forall t :: t in tags ==> t.slug != slug
  {
    if tags == [] then -1
    else if tags[0].slug == slug then 0
    else
      var k := IndexOfSlug(tags[1..], slug);
      assert forall t :: t in tags[1..] ==> t in tags;
      if k < 0 then -1 else k + 1
  }

  /** The outcome of resolving a list of tag names: the tags collected (a
      set, listed in the order first added), and the tags table with the
      next tag id afterwards. */
  datatype Resolution = Resolution(resolved: seq<Tag>, tags: seq<Tag>, nextId: nat)

  /** One turn of the tag loop: the tag with the name's slug is looked up
      and, when there is none, created and saved; the tag is then added to
      the post's set. */
  function ResolveStep(prev: Resolution, name: string): Resolution
  {
    var slug := TagSlug(name);
    var i := IndexOfSlug(prev.tags, slug);
    var tag := if i >= 0 then prev.tags[i] else Tag(prev.nextId, name, slug);
    Resolution(if tag in prev.resolved then prev.resolved else prev.resolved + [tag],
               if i >= 0 then prev.tags else prev.tags + [tag],
               if i >= 0 then prev.nextId else prev.nextId + 1)
  }

  /** The tag loop of `createPost`/`updatePost`, over the names in order. */
  function ResolveTags(tags: seq<Tag>, nextId: nat, names: seq<string>): Resolution
    decreases |names|
  {
    if names == [] then Resolution([], tags, nextId)
    else ResolveStep(ResolveTags(tags, nextId, names[..|names| - 1]), names[|names| - 1])
  }

  /** The tags table of a resolution is well formed, extends `tags`, and
      holds every collected tag, none twice; each tag it adds to `tags`
      carries one of the names and that name's slug. */
  ghost predicate ResolutionOk(tags: seq<Tag>, names: seq<string>, r: Resolution)
  {
    TagsWellformed(r.tags, r.nextId) &&
    |tags| <= |r.tags| && r.tags[..|tags|] == tags &&
    (forall k :: |tags| <= k < |r.tags| ==> r.tags[k].name in names && r.tags[k].slug == TagSlug(r.tags[k].name)) &&
    (forall t :: t in r.resolved ==> t in r.tags) &&
    NoDuplicates(r.resolved)
  }

  lemma StepOk(tags: seq<Tag>, init: seq<string>, name: string, prev: Resolution)
    requires ResolutionOk(tags, init, prev)
    ensures ResolutionOk(tags, init + [name], ResolveStep(prev, name))
  {
    var slug := TagSlug(name);
    var i := IndexOfSlug(prev.tags, slug);
    var r := ResolveStep(prev, name);
    assert forall n :: n in init ==> n in init + [name];
    if i < 0 {
      var t := Tag(prev.nextId, name, slug);
      assert (prev.tags + [t])[..|tags|] == prev.tags[..|tags|];
      assert forall s :: s in prev.tags + [t] ==> s in prev.tags || s == t;
    }
  }

  /** Resolving keeps the tags table well formed and only appends to it;
      each appended tag carries one of the names and that name's slug;
      every collected tag is in the table, and none is collected twice. */
  lemma {:induction false} ResolveTagsTable(tags: seq<Tag>, nextId: nat, names: seq<string>)
    requires TagsWellformed(tags, nextId)
    ensures ResolutionOk(tags, names, ResolveTags(tags, nextId, names))
    decreases |names|
  {
    if names == [] {
      assert tags[..|tags|] == tags;
    } else {
      var init := names[..|names| - 1];
      ResolveTagsTable(tags, nextId, init);
      StepOk(tags, init, names[|names| - 1], ResolveTags(tags, nextId, init));
      assert init + [names[|names| - 1]] == names;
    }
  }

  /** Every name's slug is the slug of a collected tag. */
  ghost predicate NamesCovered(names: seq<string>, resolved: seq<Tag>)
  {
    forall n :: n in names ==> exists t :: t in resolved && t.slug == TagSlug(n)
  }

  /** Every collected tag's slug is the slug of a name. */
  ghost predicate TagsNamed(names: seq<string>, resolved: seq<Tag>)
  {
    forall t :: t in resolved ==> exists n :: n in names && t.slug == TagSlug(n)
  }

  /** The tag a turn of the loop picks has the name's slug and ends up
      collected; nothing collected earlier is dropped, and nothing else is
      added. */
  lemma StepPicks(prev: Resolution, name: string)
    ensures var r := ResolveStep(prev, name);
            (exists tag :: tag in r.resolved && tag.slug == TagSlug(name) &&
                           forall t :: t in r.resolved ==> t in prev.resolved || t == tag) &&
            (forall t :: t in prev.resolved ==> t in r.resolved)
  {
    var slug := TagSlug(name);
    var i := IndexOfSlug(prev.tags, slug);
    var tag := if i >= 0 then prev.tags[i] else Tag(prev.nextId, name, slug);
    var r := ResolveStep(prev, name);
    assert tag in r.resolved;
  }

  lemma StepNamesCovered(init: seq<string>, name: string, prev: Resolution)
    requires NamesCovered(init, prev.resolved)
    ensures NamesCovered(init + [name], ResolveStep(prev, name).resolved)
  {
    var r := ResolveStep(prev, name);
    StepPicks(prev, name);
    forall n | n in init + [name]
      ensures exists t :: t in r.resolved && t.slug == TagSlug(n)
    {
      if n != name {
        assert n in init;
        var t :| t in prev.resolved && t.slug == TagSlug(n);
        assert t in r.resolved;
      }
    }
  }

  lemma StepTagsNamed(init: seq<string>, name: string, prev: Resolution)
    requires TagsNamed(init, prev.resolved)
    ensures TagsNamed(init + [name], ResolveStep(prev, name).resolved)
  {
    var r := ResolveStep(prev, name);
    StepPicks(prev, name);
    var tag :| tag in r.resolved && tag.slug == TagSlug(name) &&
               forall t :: t in r.resolved ==> t in prev.resolved || t == tag;
    forall t | t in r.resolved
      ensures exists n :: n in init + [name] && t.slug == TagSlug(n)
    {
      if t in prev.resolved {
        var n :| n in init && t.slug == TagSlug(n);
        assert n in init + [name];
      } else {
        assert name in init + [name];
      }
    }
  }

  /** Every name's slug is the slug of some collected tag. */
  lemma {:induction false} ResolveTagsCoversNames(tags: seq<Tag>, nextId: nat, names: seq<string>)
    ensures NamesCovered(names, ResolveTags(tags, nextId, names).resolved)
    decreases |names|
  {
    if names != [] {
      var init := names[..|names| - 1];
      ResolveTagsCoversNames(tags, nextId, init);
      StepNamesCovered(init, names[|names| - 1], ResolveTags(tags, nextId, init));
      assert init + [names[|names| - 1]] == names;
    }
  }

  /** Every collected tag's slug is the slug of some name. */
  lemma {:induction false} ResolveTagsOnlyNamed(tags: seq<Tag>, nextId: nat, names: seq<string>)
    ensures TagsNamed(names, ResolveTags(tags, nextId, names).resolved)
    decreases |names|
  {
    if names != [] {
      var init := names[..|names| - 1];
      ResolveTagsOnlyNamed(tags, nextId, init);
      StepTagsNamed(init, names[|names| - 1], ResolveTags(tags, nextId, init));
      assert init + [names[|names| - 1]] == names;
    }
  }

  /** Find-or-create: a tag already stored under a name's slug is the one
      the post gets, and a tag is created only for a slug the table did not
      hold. */
  lemma ResolveTagsReuses(tags: seq<Tag>, nextId: nat, names: seq<string>)
    requires TagsWellformed(tags, nextId)
    ensures var r := ResolveTags(tags, nextId, names);
            (forall t, n :: t in tags && n in names && t.slug == TagSlug(n) ==> t in r.resolved) &&
            (forall k :: |tags| <= k < |r.tags| ==> forall t :: t in tags ==> t.slug != r.tags[k].slug)
  {
    var r := ResolveTags(tags, nextId, names);
    ResolveTagsTable(tags, nextId, names);
    ResolveTagsCoversNames(tags, nextId, names);
    forall t, n | t in tags && n in names && t.slug == TagSlug(n)
      ensures t in r.resolved
    {
      var t' :| t' in r.resolved && t'.slug == TagSlug(n);
      var a :| 0 <= a < |tags| && tags[a] == t;
      var b :| 0 <= b < |r.tags| && r.tags[b] == t';
      assert r.tags[a] == t;
    }
    forall k | |tags| <= k < |r.tags|
      ensures forall t :: t in tags ==> t.slug != r.tags[k].slug
    {
      forall t | t in tags
        ensures t.slug != r.tags[k].slug
      {
        var a :| 0 <= a < |tags| && tags[a] == t;
        assert r.tags[a] == t;
      }
    }
  }

  /** Names with equal slugs map to one tag: no two collected tags share a
      slug. */
  lemma ResolvedOnePerSlug(tags: seq<Tag>, nextId: nat, names: seq<string>)
    requires TagsWellformed(tags, nextId)
    ensures var r := ResolveTags(tags, nextId, names);
            forall i, j :: (0 <= i < |r.resolved| && 0 <= j < |r.resolved| &&
                            r.resolved[i].slug == r.resolved[j].slug) ==> i == j
  {
    var r := ResolveTags(tags, nextId, names);
    ResolveTagsTable(tags, nextId, names);
    forall i, j | 0 <= i < |r.resolved| && 0 <= j < |r.resolved| && r.resolved[i].slug == r.resolved[j].slug
      ensures i == j
    {
      assert r.resolved[i] in r.resolved && r.resolved[j] in r.resolved;
      assert r.resolved[i] in r.tags && r.resolved[j] in r.tags;
      var a :| 0 <= a < |r.tags| && r.tags[a] == r.resolved[i];
      var b :| 0 <= b < |r.tags| && r.tags[b] == r.resolved[j];
      assert UniqueTagSlugs(r.tags);
      assert a == b;
      assert r.resolved[i] == r.resolved[j];
    }
  }

  /* ---------- createPost and updatePost ---------- */

  /** The tables `PostService` works on. */
  datatype Blog = Blog(posts: seq<Post>, tags: seq<Tag>, users: seq<User>, nextPostId: nat, nextTagId: nat)

  /** `postRepository.existsBySlug`. */
  predicate SlugTaken(posts: seq<Post>, slug: string)
  {
    exists p :: p in posts && p.slug == slug
  }

  /** No two posts share a slug. */
  predicate UniquePostSlugs(posts: seq<Post>)
  {
    forall i, j :: 0 <= i < |posts| && 0 <= j < |posts| && posts[i].slug == posts[j].slug ==> i == j
  }

  /** The post `createPost` builds before its tags are attached: the
      request's columns, the status defaulting to DRAFT, and a publication
      time exactly when the status is PUBLISHED. */
  function CreatedPost(id: Id, req: CreatePostRequest, author: User, now: int): Post
  {
    var status := if req.status.Some? then req.status.value else DRAFT;
    NewPost(id, req.title, req.slug, req.content, Some(author))
      .(excerpt := req.excerpt, featuredImage := req.featuredImage, status := status,
        publishedAt := if status == PUBLISHED then Some(now) else None)
  }

  /** `createPost`: a taken slug fails before anything else, then the
      author is looked up (by id, or the first user when no id is given);
      the tags are resolved only for a present, non-empty list. */
  function AfterCreatePost(db: Blog, req: CreatePostRequest, now: int): (Result<PostResponse, Failure>, Blog)
  {
    if SlugTaken(db.posts, req.slug) then (Err(SlugAlreadyExists(req.slug)), db)
    else
      var author := if req.authorId.Some? then FindUser(db.users, req.authorId.value) else FirstUser(db.users);
      if author.None? then
        (Err(if req.authorId.Some? then ResourceNotFound("User", "id") else NoUsersFound), db)
      else
        var post := CreatedPost(db.nextPostId, req, author.value, now);
        if req.tags.Some? && req.tags.value != [] then
          var res := ResolveTags(db.tags, db.nextTagId, req.tags.value);
          var p := post.(tags := Some(res.resolved));
          (Ok(MapToResponse(p)), Blog(db.posts + [p], res.tags, db.users, db.nextPostId + 1, res.nextId))
        else
          (Ok(MapToResponse(post)), db.(posts := db.posts + [post], nextPostId := db.nextPostId + 1))
  }

  /** The failures of `createPost`, in order, each leaving every table as
      it was: a taken slug, then an unknown author id, then no users at all
      when no author id is given. */
  lemma CreatePostFailures(db: Blog, req: CreatePostRequest, now: int)
    ensures var (r, after) := AfterCreatePost(db, req, now);
            (SlugTaken(db.posts, req.slug) ==> r == Err(SlugAlreadyExists(req.slug)) && after == db) &&
            (!SlugTaken(db.posts, req.slug) && req.authorId.Some? && !HasUser(db.users, req.authorId.value) ==>
               r == Err(ResourceNotFound("User", "id")) && after == db) &&
            (!SlugTaken(db.posts, req.slug) && req.authorId.None? && db.users == [] ==>
               r == Err(NoUsersFound) && after == db) &&
            (r.Ok? <==> !SlugTaken(db.posts, req.slug) &&
                        (if req.authorId.Some? then HasUser(db.users, req.authorId.value) else db.users != []))
  {
  }

  /** A successful `createPost` appends one post and touches no other post
      or user: the post has the request's slug and columns, the status
      defaults to DRAFT, the publication time is set exactly for PUBLISHED,
      the view count is 0, there are no categories, and the tags are those
      resolved from a present, non-empty list and none otherwise (the tags
      table then unchanged). The response describes that post. */
  lemma CreatePostStores(db: Blog, req: CreatePostRequest, now: int)
    ensures var (r, after) := AfterCreatePost(db, req, now);
            r.Ok? ==>
              |after.posts| == |db.posts| + 1 && after.posts[..|db.posts|] == db.posts &&
              after.users == db.users && after.nextPostId == db.nextPostId + 1 &&
              var p := after.posts[|db.posts|];
              r.value == MapToResponse(p) && p.id == db.nextPostId &&
              p.title == req.title && p.slug == req.slug && p.content == req.content &&
              p.excerpt == req.excerpt && p.featuredImage == req.featuredImage &&
              p.status == GetStatus(req.status) &&
              (p.publishedAt.Some? <==> p.status == PUBLISHED) &&
              (p.publishedAt.Some? ==> p.publishedAt.value == now) &&
              p.viewCount == 0 && p.categories == [] && p.author.Some? &&
              (req.authorId.Some? ==> p.author.value.id == req.authorId.value) &&
              (req.authorId.None? ==> p.author.value == db.users[0]) &&
              (req.tags.None? || req.tags.value == [] ==> p.tags == Some([]) && after.tags == db.tags) &&
              (req.tags.Some? && req.tags.value != [] ==>
                 p.tags == Some(ResolveTags(db.tags, db.nextTagId, req.tags.value).resolved))
  {
    var (r, after) := AfterCreatePost(db, req, now);
    if r.Ok? {
      assert (db.posts + [after.posts[|db.posts|]])[..|db.posts|] == db.posts;
    }
  }

  /** `createPost` never creates a second post with the same slug. */
  lemma CreatePostKeepsSlugsUnique(db: Blog, req: CreatePostRequest, now: int)
    requires UniquePostSlugs(db.posts)
    ensures UniquePostSlugs(AfterCreatePost(db, req, now).1.posts)
  {
    var (r, after) := AfterCreatePost(db, req, now);
    if r.Ok? {
      assert forall j :: 0 <= j < |db.posts| ==> db.posts[j] in db.posts;
    }
  }

  /** `postRepository.findById`: the position of the post, or -1. */
  function IndexOfPost(posts: seq<Post>, id: Id): (r: int)
    ensures -1 <= r < |posts|
    ensures r >= 0 ==> posts[r].id == id
    ensures r < 0 <==> forall p :: p in posts ==> p.id != id
  {
    if posts == [] then -1
    else if posts[0].id == id then 0
    else
      var k := IndexOfPost(posts[1..], id);
      assert forall p :: p in posts[1..] ==> p in posts;
      if k < 0 then -1 else k + 1
  }

  /** `updatePost`: not-found for an unknown id; otherwise the title, slug,
      content, excerpt and image are overwritten, the status only when one
      is given, and the tags only when a list is given. */
  function AfterUpdatePost(db: Blog, id: Id, req: CreatePostRequest): (Result<PostResponse, Failure>, Blog)
  {
    var i := IndexOfPost(db.posts, id);
    if i < 0 then (Err(ResourceNotFound("Post", "id")), db)
    else
      var old_ := db.posts[i];
      var post := old_.(title := req.title, slug := req.slug, content := req.content, excerpt := req.excerpt,
                        featuredImage := req.featuredImage,
                        status := if req.status.Some? then req.status.value else old_.status);
      if req.tags.Some? then
        var res := ResolveTags(db.tags, db.nextTagId, req.tags.value);
        var p := post.(tags := Some(res.resolved));
        (Ok(MapToResponse(p)), db.(posts := db.posts[i := p], tags := res.tags, nextTagId := res.nextId))
      else
        (Ok(MapToResponse(post)), db.(posts := db.posts[i := post]))
  }

  /** `updatePost`: an unknown id is not-found and changes nothing;
      otherwise only the post at that position changes: it takes the
      request's title, slug, content, excerpt and image, keeps its status
      when none is given, keeps its tags (and the tags table) when no list
      is given, loses them for an empty list, and keeps its id, publication
      time, view count, categories and author. */
  lemma UpdatePostOutcomes(db: Blog, id: Id, req: CreatePostRequest)
    ensures var (r, after) := AfterUpdatePost(db, id, req);
            ((forall p :: p in db.posts ==> p.id != id) ==> r == Err(ResourceNotFound("Post", "id")) && after == db) &&
            (r.Ok? ==>
               var i := IndexOfPost(db.posts, id);
               var old_ := db.posts[i];
               var p := after.posts[i];
               |after.posts| == |db.posts| && after.users == db.users && after.nextPostId == db.nextPostId &&
               (forall j :: 0 <= j < |db.posts| && j != i ==> after.posts[j] == db.posts[j]) &&
               r.value == MapToResponse(p) &&
               p.id == id && p.title == req.title && p.slug == req.slug && p.content == req.content &&
               p.excerpt == req.excerpt && p.featuredImage == req.featuredImage &&
               (req.status.None? ==> p.status == old_.status) &&
               (req.status.Some? ==> p.status == req.status.value) &&
               (req.tags.None? ==> p.tags == old_.tags && after.tags == db.tags) &&
               (req.tags == Some([]) ==> p.tags == Some([]) && after.tags == db.tags) &&
               p.publishedAt == old_.publishedAt && p.viewCount == old_.viewCount &&
               p.categories == old_.categories && p.author == old_.author)
  {
  }

  /* ---------- getFilteredPosts ---------- */

  /** The repository query `getFilteredPosts` runs. */
  datatype PostQuery = ByCategory(categorySlug: string) | ByTag(tagSlug: string) | ByTitle(query: string) | AllPosts

  /** A request parameter that is neither null nor empty. */
  predicate Given(s: Option<string>)
  {
    s.Some? && s.value != []
  }

  /** The first given filter in the order category, tag, search. */
  function SelectQuery(category: Option<string>, tag: Option<string>, search: Option<string>): PostQuery
  {
    if Given(category) then ByCategory(category.value)
    else if Given(tag) then ByTag(tag.value)
    else if Given(search) then ByTitle(search.value)
    else AllPosts
  }

  /** What each query matches: a post in a category with that slug, a post
      with a tag of that slug, a post whose lower-cased title contains the
      lower-cased query, or every post. */
  predicate Matches(p: Post, q: PostQuery)
  {
    match q
    case ByCategory(slug) => exists c :: c in p.categories && c.slug == slug
    case ByTag(slug) => p.tags.Some? && exists t :: t in p.tags.value && t.slug == slug
    case ByTitle(query) => Contains(Lower(p.title), Lower(query))
    case AllPosts => true
  }

  /** The posts the query returns, in table order. */
  function FilterPosts(posts: seq<Post>, q: PostQuery): (r: seq<Post>)
    ensures |r| <= |posts|
    ensures forall p :: p in r <==> p in posts && Matches(p, q)
  {
    if posts == [] then []
    else
      var init := FilterPosts(posts[..|posts| - 1], q);
      var last := posts[|posts| - 1];
      assert posts == posts[..|posts| - 1] + [last];
      if Matches(last, q) then init + [last] else init
  }

  /** Page `page` of size `size`: the elements from `page * size`, at most
      `size` of them. */
  function PageOf<T>(s: seq<T>, page: nat, size: nat): (r: seq<T>)
    ensures |r| <= size
    ensures page * size <= |s| ==> r == s[page * size..if page * size + size <= |s| then page * size + size else |s|]
    ensures page * size > |s| ==> r == []
  {
    if page * size >= |s| then []
    else if page * size + size <= |s| then s[page * size..page * size + size]
    else s[page * size..]
  }

  const PAGE_INDEX_NEGATIVE := "Page index must not be less than zero"
  const PAGE_SIZE_TOO_SMALL := "Page size must not be less than one"

  function ToResponses(posts: seq<Post>): (r: seq<PostResponse>)
    ensures |r| == |posts|
    ensures forall i :: 0 <= i < |posts| ==> r[i] == MapToResponse(posts[i])
  {
    seq(|posts|, i requires 0 <= i < |posts| => MapToResponse(posts[i]))
  }

  /** `getFilteredPosts`: the page request rejects a negative page index
      and a size below one; otherwise the selected query's matches are
      paged and mapped to responses. */
  function GetFilteredPosts(posts: seq<Post>, category: Option<string>, tag: Option<string>,
                            search: Option<string>, page: int, size: int): Result<seq<PostResponse>, Failure>
  {
    if page < 0 then Err(IllegalArgument(Some(PAGE_INDEX_NEGATIVE)))
    else if size < 1 then Err(IllegalArgument(Some(PAGE_SIZE_TOO_SMALL)))
    else Ok(ToResponses(PageOf(FilterPosts(posts, SelectQuery(category, tag, search)), page, size)))
  }

  /** Exactly one filter applies, with precedence category > tag > search:
      a given category makes the tag and search irrelevant, a given tag
      makes the search irrelevant, and a null parameter behaves as an empty
      one; with no filter every post is listed. */
  lemma FilterPrecedence(posts: seq<Post>, category: Option<string>, tag: Option<string>, tag2: Option<string>,
                         search: Option<string>, search2: Option<string>, page: int, size: int)
    ensures Given(category) ==>
              GetFilteredPosts(posts, category, tag, search, page, size) ==
              GetFilteredPosts(posts, category, tag2, search2, page, size)
    ensures !Given(category) && Given(tag) ==>
              GetFilteredPosts(posts, category, tag, search, page, size) ==
              GetFilteredPosts(posts, None, tag, search2, page, size)
    ensures !Given(category) && !Given(tag) ==>
              GetFilteredPosts(posts, category, tag, search, page, size) ==
              GetFilteredPosts(posts, None, None, search, page, size)
    ensures !Given(search) ==> GetFilteredPosts(posts, None, None, search, page, size) ==
                               GetFilteredPosts(posts, Some([]), None, None, page, size)
  {
  }

  /** A page holds only elements of the sequence paged. */
  lemma PageWithin<T>(s: seq<T>, page: nat, size: nat)
    ensures forall x :: x in PageOf(s, page, size) ==> x in s
  {
  }

  /** Every listed post matches the selected query, and a page holds at
      most `size` posts. */
  lemma FilteredPostsMatch(posts: seq<Post>, category: Option<string>, tag: Option<string>,
                           search: Option<string>, page: int, size: int)
    ensures var r := GetFilteredPosts(posts, category, tag, search, page, size);
            (r.Ok? <==> page >= 0 && size >= 1) &&
            (r.Ok? ==> |r.value| <= size &&
                       forall x :: x in r.value ==>
                         exists p :: p in posts && Matches(p, SelectQuery(category, tag, search)) && x == MapToResponse(p))
  {
    if page >= 0 && size >= 1 {
      var q := SelectQuery(category, tag, search);
      var f := FilterPosts(posts, q);
      var pg := PageOf(f, page, size);
      var rs := ToResponses(pg);
      PageWithin(f, page, size);
      forall x | x in rs
        ensures exists p :: p in posts && Matches(p, q) && x == MapToResponse(p)
      {
        var i :| 0 <= i < |pg| && rs[i] == x;
        assert pg[i] in f;
      }
    }
  }

  /** The first page of a size covering every post lists every matching
      post. */
  lemma FirstPageComplete(posts: seq<Post>, category: Option<string>, tag: Option<string>,
                          search: Option<string>, size: int)
    requires size >= 1 && size >= |posts|
    ensures var r := GetFilteredPosts(posts, category, tag, search, 0, size);
            r.Ok? && forall p :: p in posts && Matches(p, SelectQuery(category, tag, search)) ==> MapToResponse(p) in r.value
  {
    var q := SelectQuery(category, tag, search);
    var f := FilterPosts(posts, q);
    var rs := ToResponses(PageOf(f, 0, size));
    assert PageOf(f, 0, size) == f;
    forall p | p in posts && Matches(p, q)
      ensures MapToResponse(p) in rs
    {
      var i :| 0 <= i < |f| && f[i] == p;
      assert rs[i] == MapToResponse(p);
    }
  }

  /* ---------- the service ---------- */

  class PostService {
    var posts: seq<Post>
    var tags: seq<Tag>
    var users: seq<User>
    var nextPostId: nat
    var nextTagId: nat

    function State(): Blog
      reads this
    {
      Blog(posts, tags, users, nextPostId, nextTagId)
    }

    ghost predicate Valid()
      reads this
    {
      TagsWellformed(tags, nextTagId)
    }

    constructor (initialUsers: seq<User>)
      ensures Valid() && State() == Blog([], [], initialUsers, 0, 0)
    {
      posts := [];
      tags := [];
      users := initialUsers;
      nextPostId := 0;
      nextTagId := 0;
    }

    /** The tag loop: looks each name's slug up, saves a new tag when there
        is none, and collects the tags as a set. */
    method ResolveTagNames(names: seq<string>) returns (resolved: seq<Tag>)
      requires Valid()
      modifies this
      ensures Valid()
      ensures posts == old(posts) && users == old(users) && nextPostId == old(nextPostId)
      ensures Resolution(resolved, tags, nextTagId) == ResolveTags(old(tags), old(nextTagId), names)
    {
      resolved := [];
      var i := 0;
      while i < |names|
        invariant i <= |names|
        invariant posts == old(posts) && users == old(users) && nextPostId == old(nextPostId)
        invariant Valid()
        invariant Resolution(resolved, tags, nextTagId) == ResolveTags(old(tags), old(nextTagId), names[..i])
      {
        var tagName := names[i];
        var slug := TagSlug(tagName);
        var k := IndexOfSlug(tags, slug);
        var tag: Tag;
        if k >= 0 {
          tag := tags[k];
        } else {
          tag := Tag(nextTagId, tagName, slug);
          tags := tags + [tag];
          nextTagId := nextTagId + 1;
        }
        if tag !in resolved {
          resolved := resolved + [tag];
        }
        assert names[..i + 1][..i] == names[..i];
        i := i + 1;
      }
      assert names[..i] == names;
    }

    /** `createPost`, as `AfterCreatePost` states it. */
    method CreatePost(req: CreatePostRequest, now: int) returns (r: Result<PostResponse, Failure>)
      requires Valid()
      modifies this
      ensures Valid()
      ensures (r, State()) == AfterCreatePost(old(State()), req, now)
    {
      if exists p :: p in posts && p.slug == req.slug {
        return Err(SlugAlreadyExists(req.slug));
      }
      var author := if req.authorId.Some? then FindUser(users, req.authorId.value) else FirstUser(users);
      if author.None? {
        return Err(if req.authorId.Some? then ResourceNotFound("User", "id") else NoUsersFound);
      }
      var post := NewPost(nextPostId, req.title, req.slug, req.content, author);
      post := post.(excerpt := req.excerpt, featuredImage := req.featuredImage);
      post := post.(status := if req.status.Some? then req.status.value else DRAFT);
      if post.status == PUBLISHED {
        post := post.(publishedAt := Some(now));
      }
      assert post == CreatedPost(nextPostId, req, author.value, now);
      if req.tags.Some? && req.tags.value != [] {
        var resolved := ResolveTagNames(req.tags.value);
        post := post.(tags := Some(resolved));
      }
      posts := posts + [post];
      nextPostId := nextPostId + 1;
      r := Ok(MapToResponse(post));
    }

    /** `updatePost`, as `AfterUpdatePost` states it. */
    method UpdatePost(id: Id, req: CreatePostRequest) returns (r: Result<PostResponse, Failure>)
      requires Valid()
      modifies this
      ensures Valid()
      ensures (r, State()) == AfterUpdatePost(old(State()), id, req)
    {
      var i := IndexOfPost(posts, id);
      if i < 0 {
        return Err(ResourceNotFound("Post", "id"));
      }
      var existing := posts[i];
      existing := existing.(title := req.title, slug := req.slug, content := req.content);
      existing := existing.(excerpt := req.excerpt, featuredImage := req.featuredImage);
      if req.status.Some? {
        existing := existing.(status := req.status.value);
      }
      if req.tags.Some? {
        var resolved := ResolveTagNames(req.tags.value);
        existing := existing.(tags := Some(resolved));
      }
      posts := posts[i := existing];
      r := Ok(MapToResponse(existing));
    }
  }
}
