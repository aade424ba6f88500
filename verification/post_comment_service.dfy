/** `PostCommentService`, the second comment service: the same creation,
    soft deletion and tree reading as `CommentService` (soft deletion goes
    through the mapper, which sets the same two columns), plus `update`,
    which overwrites a stored comment's content, mentions and parent. */
module PostCommentService {
  import opened Wrappers
  import opened Text
  import opened UserEntity
  import opened ExceptionHandler
  import opened NotificationService
  import opened CommentThreads

  /** The message of the runtime error `update` raises for an unknown id;
      the id's text stands for the UUID's. */
  function CommentNotFoundMessage(id: Id): (m: string)
    ensures |m| > |"Comment not found with id: "|
    ensures m[..|"Comment not found with id: "|] == "Comment not found with id: "
  {
    var m := "Comment not found with id: " + NatToString(id);
    assert m[..|"Comment not found with id: "|] == "Comment not found with id: ";
    m
  }

  /** `update`: an unknown id is a runtime error; otherwise the stored
      comment gets the new content, mentioned users and parent. */
  function AfterUpdate(comments: seq<Comment>, id: Id, content: string, mentioned: set<Id>,
                       parentId: Option<Id>): (Result<Comment, Failure>, seq<Comment>)
  {
    var i := IndexOfComment(comments, id);
    if i < 0 then (Err(Runtime(Some(CommentNotFoundMessage(id)))), comments)
    else
      var updated := comments[i].(content := content, mentionedUsers := mentioned, parentId := parentId);
      (Ok(updated), comments[i := updated])
  }

  /** An unknown id fails and changes nothing; otherwise the comment with
      that id keeps its id, post, author, creation time and soft-delete
      columns and takes exactly the new content, mentions and parent, the
      result is the saved comment, and every other comment is unchanged. */
  lemma UpdateOutcomes(comments: seq<Comment>, id: Id, content: string, mentioned: set<Id>, parentId: Option<Id>)
    requires DistinctIds(comments)
    ensures var (r, after) := AfterUpdate(comments, id, content, mentioned, parentId);
            (id !in IdsOf(comments) ==> r == Err(Runtime(Some(CommentNotFoundMessage(id)))) && after == comments) &&
            (id in IdsOf(comments) ==>
               r.Ok? && |after| == |comments| && DistinctIds(after) && r.value in after &&
               (forall j :: 0 <= j < |comments| && comments[j].id != id ==> after[j] == comments[j]) &&
               (forall j :: 0 <= j < |comments| && comments[j].id == id ==>
                  after[j] == r.value &&
                  r.value == Comment(id, comments[j].postId, comments[j].authorId, parentId, content, mentioned,
                                     comments[j].createdAt, comments[j].isActive, comments[j].deletedAt)))
  {
    var (r, after) := AfterUpdate(comments, id, content, mentioned, parentId);
    if id in IdsOf(comments) {
      var i := IndexOfComment(comments, id);
      assert after[i] == r.value;
      forall j | 0 <= j < |comments| && comments[j].id == id
        ensures j == i
      {
      }
    }
  }

  class PostCommentService {
    var postSlugs: map<string, Id>
    var comments: seq<Comment>
    var nextCommentId: nat
    const notifier: NotificationService

    ghost predicate Valid()
      reads this, notifier
    {
      notifier.Valid() && DistinctIds(comments) &&
      (forall c :: c in comments ==> c.id < nextCommentId)
    }

    constructor (posts: map<string, Id>, notificationService: NotificationService)
      requires notificationService.Valid()
      ensures Valid()
      ensures postSlugs == posts && comments == [] && nextCommentId == 0 && notifier == notificationService
    {
      postSlugs := posts;
      comments := [];
      nextCommentId := 0;
      notifier := notificationService;
    }

    /** `createComment`: the lookups fail first and change nothing;
        otherwise the comment is saved with the users its content mentions,
        and every mentioned user except the author is notified once. */
    method CreateComment(postSlug: string, content: string, parentId: Option<Id>, authorId: Option<Id>, now: int)
      returns (r: Result<Comment, Failure>)
      requires Valid()
      modifies this, notifier
      ensures Valid()
      ensures postSlugs == old(postSlugs)
      ensures CheckCreate(old(postSlugs), old(notifier.users), old(comments), postSlug, authorId, parentId).Err? ==>
                r == Err(CheckCreate(old(postSlugs), old(notifier.users), old(comments), postSlug, authorId, parentId).error) &&
                comments == old(comments) && nextCommentId == old(nextCommentId) &&
                notifier.State() == old(notifier.State())
      ensures CheckCreate(old(postSlugs), old(notifier.users), old(comments), postSlug, authorId, parentId).Ok? ==>
                r.Ok? &&
                r.value == NewComment(old(nextCommentId),
                                      CheckCreate(old(postSlugs), old(notifier.users), old(comments), postSlug, authorId, parentId).value,
                                      content, MentionedIds(old(notifier.users), content), now) &&
                comments == old(comments) + [r.value] && nextCommentId == old(nextCommentId) + 1 &&
                MentionsDelivered(old(notifier.State()), notifier.State(), r.value.mentionedUsers - {r.value.authorId},
                                  MentionMessage(CheckCreate(old(postSlugs), old(notifier.users), old(comments), postSlug,
                                                             authorId, parentId).value.author, content),
                                  postSlug, r.value.id)
    {
      var checked := CheckCreate(postSlugs, notifier.users, comments, postSlug, authorId, parentId);
      if checked.Err? {
        return Err(checked.error);
      }
      var author := checked.value.author;
      var mentioned := ExtractMentions(notifier.users, content);
      var comment := NewComment(nextCommentId, checked.value, content, mentioned, now);
      AppendFreshComment(comments, comment, nextCommentId);
      comments := comments + [comment];
      nextCommentId := nextCommentId + 1;
      ghost var before := notifier.State();
      NotifyMentioned(notifier, mentioned, author.id, MentionMessage(author, content), postSlug, comment.id);
      assert before == old(notifier.State());
      assert comment.mentionedUsers - {comment.authorId} == mentioned - {author.id};
      r := Ok(comment);
    }

    /** `softDeleteComment`, as `AfterSoftDelete` states it. */
    method SoftDeleteComment(commentId: Id, adminUserId: Id, now: int) returns (err: Option<Failure>)
      requires Valid()
      modifies this
      ensures Valid()
      ensures (err, comments) == AfterSoftDelete(notifier.users, old(comments), commentId, adminUserId, now)
      ensures postSlugs == old(postSlugs) && nextCommentId == old(nextCommentId)
    {
      var admin := FindUser(notifier.users, adminUserId);
      if admin.None? {
        return Some(ResourceNotFound("User", "id"));
      }
      if admin.value.role != ADMIN {
        return Some(Runtime(Some(ONLY_ADMINS)));
      }
      var i := IndexOfComment(comments, commentId);
      if i < 0 {
        return Some(ResourceNotFound("Comment", "id"));
      }
      SoftDeleteOutcomes(notifier.users, comments, commentId, adminUserId, now);
      comments := comments[i := comments[i].(isActive := false, deletedAt := Some(now))];
      err := None;
    }

    /** `update`, as `AfterUpdate` states it. */
    method Update(id: Id, content: string, mentioned: set<Id>, parentId: Option<Id>) returns (r: Result<Comment, Failure>)
      requires Valid()
      modifies this
      ensures Valid()
      ensures (r, comments) == AfterUpdate(old(comments), id, content, mentioned, parentId)
      ensures postSlugs == old(postSlugs) && nextCommentId == old(nextCommentId)
    {
      var i := IndexOfComment(comments, id);
      if i < 0 {
        return Err(Runtime(Some(CommentNotFoundMessage(id))));
      }
      UpdateOutcomes(comments, id, content, mentioned, parentId);
      var existing := comments[i];
      existing := existing.(content := content, mentionedUsers := mentioned, parentId := parentId);
      comments := comments[i := existing];
      r := Ok(existing);
    }

    /** `getCommentsForPost`: not-found for an unknown slug; otherwise the
        tree of the post's active comments. */
    method GetCommentsForPost(postSlug: string) returns (r: Result<CommentTree, Failure>)
      ensures postSlug !in postSlugs ==> r == Err(ResourceNotFound("Post", "slug"))
      ensures postSlug in postSlugs ==>
                r.Ok? &&
                r.value.roots == SortNewestFirst(RootsOf(ActiveCommentsOf(comments, postSlugs[postSlug]))) &&
                r.value.replies.Keys == IdsOf(ActiveCommentsOf(comments, postSlugs[postSlug])) &&
                (forall p :: p in r.value.replies ==>
                   r.value.replies[p] == ChildrenOf(ActiveCommentsOf(comments, postSlugs[postSlug]), p))
    {
      if postSlug !in postSlugs {
        return Err(ResourceNotFound("Post", "slug"));
      }
      var active := ActiveCommentsOf(comments, postSlugs[postSlug]);
      var tree := BuildCommentTree(active);
      r := Ok(tree);
    }
  }
}
