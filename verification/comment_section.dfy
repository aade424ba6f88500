/** The comment section under a post: the comment count in its heading, the
    top-level submit and the reply flow, each followed by a fresh fetch of
    the comment list. */
module CommentSection {
  import opened Wrappers
  import opened FrontendTypes
  import CommentForm

  /** `c.replies?.length || 0`. */
  function DirectReplies(c: Comment): nat
  {
    if c.replies.Some? then |c.replies.value| else 0
  }

  /** The heading's count: each top-level comment and its direct replies. */
  function CommentCount(cs: seq<Comment>): nat
  {
    if cs == [] then 0 else CommentCount(cs[..|cs| - 1]) + 1 + DirectReplies(cs[|cs| - 1])
  }

  /** The count of a concatenation is the sum of the counts (the `reduce`
      runs left to right). */
  lemma {:induction false} CountAppend(a: seq<Comment>, b: seq<Comment>)
    ensures CommentCount(a + b) == CommentCount(a) + CommentCount(b)
    decreases |b|
  {
    if b == [] {
      assert a + b == a;
    } else {
      assert (a + b)[..|a + b| - 1] == a + b[..|b| - 1];
      CountAppend(a, b[..|b| - 1]);
    }
  }

  /** Every top-level comment adds at least one; the count equals the
      number of top-level comments exactly when none has a direct reply. */
  lemma {:induction false} CountBounds(cs: seq<Comment>)
    ensures CommentCount(cs) >= |cs|
    ensures CommentCount(cs) == |cs| <==> forall i :: 0 <= i < |cs| ==> DirectReplies(cs[i]) == 0
  {
    if cs != [] {
      var init := cs[..|cs| - 1];
      CountBounds(init);
      assert forall i :: 0 <= i < |init| ==> init[i] == cs[i];
    }
  }

  /** Deeper replies are not counted: two lists whose comments have the same
      numbers of direct replies have the same count. */
  lemma {:induction false} CountIgnoresDeeperReplies(cs: seq<Comment>, ds: seq<Comment>)
    requires |cs| == |ds| && forall i :: 0 <= i < |cs| ==> DirectReplies(cs[i]) == DirectReplies(ds[i])
    ensures CommentCount(cs) == CommentCount(ds)
  {
    if cs != [] {
      CountIgnoresDeeperReplies(cs[..|cs| - 1], ds[..|ds| - 1]);
    }
  }

  /** The body of a comment request; `parentId` is set on replies only. */
  datatype CommentRequest = CommentRequest(postSlug: string, content: string, parentId: Option<string>)

  /** Whether the form's `onSubmit` promise resolves after the request
      settles: the top-level handler swallows a failure, the reply handler
      rethrows it. */
  function HandlerResolves(isReply: bool, requestSucceeded: bool): bool
  {
    requestSucceeded || !isReply
  }

  /** A failed top-level comment still clears its form; a failed reply keeps
      its text; any success clears. */
  lemma FormAfterRequest(content: string, isReply: bool, requestSucceeded: bool)
    ensures requestSucceeded ==> CommentForm.AfterSettled(content, HandlerResolves(isReply, requestSucceeded)) == ""
    ensures !requestSucceeded && !isReply ==> CommentForm.AfterSettled(content, HandlerResolves(isReply, requestSucceeded)) == ""
    ensures !requestSucceeded && isReply ==> CommentForm.AfterSettled(content, HandlerResolves(isReply, requestSucceeded)) == content
  {
  }

  class Section {
    const slug: string
    var comments: seq<Comment>
    var loading: bool
    var submitLoading: bool

    constructor (slug: string)
      ensures this.slug == slug && comments == [] && loading && !submitLoading
    {
      this.slug := slug;
      comments := [];
      loading := true;
      submitLoading := false;
    }

    /** The answer to a fetch of the comment list: a list replaces the
        comments, a failure keeps them; the section stops loading. */
    method CommentsAnswered(answer: Option<seq<Comment>>)
      modifies this
      ensures comments == (if answer.Some? then answer.value else old(comments))
      ensures !loading && submitLoading == old(submitLoading)
    {
      if answer.Some? {
        comments := answer.value;
      }
      loading := false;
    }

    /** `handleSubmitComment`: a top-level comment request. */
    method SubmitComment(content: string) returns (request: CommentRequest)
      modifies this
      ensures request == CommentRequest(slug, content, None)
      ensures submitLoading && comments == old(comments)
    {
      submitLoading := true;
      request := CommentRequest(slug, content, None);
    }

    /** The top-level request settled: a success asks for a fresh list, and
        the form's promise resolves either way. */
    method SubmitSettled(succeeded: bool) returns (refetch: bool, resolves: bool)
      modifies this
      ensures refetch == succeeded && resolves == HandlerResolves(false, succeeded) && resolves
      ensures !submitLoading && comments == old(comments)
    {
      refetch := succeeded;
      resolves := HandlerResolves(false, succeeded);
      submitLoading := false;
    }

    /** `handleReply`: a reply request under `parentId`. */
    method Reply(parentId: string, content: string) returns (request: CommentRequest)
      ensures request == CommentRequest(slug, content, Some(parentId))
    {
      request := CommentRequest(slug, content, Some(parentId));
    }

    /** The reply request settled: a success asks for a fresh list; a failure
        is thrown back to the reply form. */
    method ReplySettled(succeeded: bool) returns (refetch: bool, resolves: bool)
      ensures refetch == succeeded && resolves == HandlerResolves(true, succeeded) && (resolves <==> succeeded)
    {
      refetch := succeeded;
      resolves := HandlerResolves(true, succeeded);
    }

    /** The count shown in the heading. */
    function Count(): nat
      reads this
    {
      CommentCount(comments)
    }
  }
}
