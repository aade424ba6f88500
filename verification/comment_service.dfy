/** `CommentService`: creating comments (with mention notifications),
    soft-deleting them and reading a post's comment tree. The post table is
    the map from slug to post id that `findBySlug` consults; the users table
    is the one the notification service keeps, so that mentions and
    counters see the same rows. */
module CommentService {
  import opened Wrappers
  import opened UserEntity
  import opened ExceptionHandler
  import opened NotificationService
  import opened CommentThreads

  class CommentService {
    var postSlugs: map<string, Id>
    var comments: seq<Comment>
    var nextCommentId: nat
    const notifier: NotificationService

    ghost predicate Valid()
      reads this, notifier
    {
      notifier.Valid() && DistinctIds(comments) &&
      (forall c :: c in comments ==> c.id < nextCommentId)
    }

    constructor (posts: map<string, Id>, notificationService: NotificationService)
      requires notificationService.Valid()
      ensures Valid()
      ensures postSlugs == posts && comments == [] && nextCommentId == 0 && notifier == notificationService
    {
      postSlugs := posts;
      comments := [];
      nextCommentId := 0;
      notifier := notificationService;
    }

    /** `createComment`: the lookups fail first and change nothing;
        otherwise the comment is saved with the users its content mentions,
        and every mentioned user except the author is notified once. */
    method CreateComment(postSlug: string, content: string, parentId: Option<Id>, authorId: Option<Id>, now: int)
      returns (r: Result<Comment, Failure>)
      requires Valid()
      modifies this, notifier
      ensures Valid()
      ensures postSlugs == old(postSlugs)
      ensures CheckCreate(old(postSlugs), old(notifier.users), old(comments), postSlug, authorId, parentId).Err? ==>
                r == Err(CheckCreate(old(postSlugs), old(notifier.users), old(comments), postSlug, authorId, parentId).error) &&
                comments == old(comments) && nextCommentId == old(nextCommentId) &&
                notifier.State() == old(notifier.State())
      ensures CheckCreate(old(postSlugs), old(notifier.users), old(comments), postSlug, authorId, parentId).Ok? ==>
                r.Ok? &&
                r.value == NewComment(old(nextCommentId),
                                      CheckCreate(old(postSlugs), old(notifier.users), old(comments), postSlug, authorId, parentId).value,
                                      content, MentionedIds(old(notifier.users), content), now) &&
                comments == old(comments) + [r.value] && nextCommentId == old(nextCommentId) + 1 &&
                MentionsDelivered(old(notifier.State()), notifier.State(), r.value.mentionedUsers - {r.value.authorId},
                                  MentionMessage(CheckCreate(old(postSlugs), old(notifier.users), old(comments), postSlug,
                                                             authorId, parentId).value.author, content),
                                  postSlug, r.value.id)
    {
      var checked := CheckCreate(postSlugs, notifier.users, comments, postSlug, authorId, parentId);
      if checked.Err? {
        return Err(checked.error);
      }
      var author := checked.value.author;
      var mentioned := ExtractMentions(notifier.users, content);
      var comment := NewComment(nextCommentId, checked.value, content, mentioned, now);
      AppendFreshComment(comments, comment, nextCommentId);
      comments := comments + [comment];
      nextCommentId := nextCommentId + 1;
      ghost var before := notifier.State();
      NotifyMentioned(notifier, mentioned, author.id, MentionMessage(author, content), postSlug, comment.id);
      assert before == old(notifier.State());
      assert comment.mentionedUsers - {comment.authorId} == mentioned - {author.id};
      r := Ok(comment);
    }

    /** `softDeleteComment`, as `AfterSoftDelete` states it. */
    method SoftDeleteComment(commentId: Id, adminUserId: Id, now: int) returns (err: Option<Failure>)
      requires Valid()
      modifies this
      ensures Valid()
      ensures (err, comments) == AfterSoftDelete(notifier.users, old(comments), commentId, adminUserId, now)
      ensures postSlugs == old(postSlugs) && nextCommentId == old(nextCommentId)
    {
      var admin := FindUser(notifier.users, adminUserId);
      if admin.None? {
        return Some(ResourceNotFound("User", "id"));
      }
      if admin.value.role != ADMIN {
        return Some(Runtime(Some(ONLY_ADMINS)));
      }
      var i := IndexOfComment(comments, commentId);
      if i < 0 {
        return Some(ResourceNotFound("Comment", "id"));
      }
      SoftDeleteOutcomes(notifier.users, comments, commentId, adminUserId, now);
      comments := comments[i := comments[i].(isActive := false, deletedAt := Some(now))];
      err := None;
    }

    /** `getCommentsForPost`: not-found for an unknown slug; otherwise the
        tree of the post's active comments. */
    method GetCommentsForPost(postSlug: string) returns (r: Result<CommentTree, Failure>)
      ensures postSlug !in postSlugs ==> r == Err(ResourceNotFound("Post", "slug"))
      ensures postSlug in postSlugs ==>
                r.Ok? &&
                r.value.roots == SortNewestFirst(RootsOf(ActiveCommentsOf(comments, postSlugs[postSlug]))) &&
                r.value.replies.Keys == IdsOf(ActiveCommentsOf(comments, postSlugs[postSlug])) &&
                (forall p :: p in r.value.replies ==>
                   r.value.replies[p] == ChildrenOf(ActiveCommentsOf(comments, postSlugs[postSlug]), p))
    {
      if postSlug !in postSlugs {
        return Err(ResourceNotFound("Post", "slug"));
      }
      var active := ActiveCommentsOf(comments, postSlugs[postSlug]);
      var tree := BuildCommentTree(active);
      r := Ok(tree);
    }
  }
}
