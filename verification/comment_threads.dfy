/** The logic the two comment services share: the comment record, the
    two-pass tree building over a flat list of comments, `@username`
    mention extraction, notification-text truncation, the mention
    notification loop, the create-time lookups and soft deletion. */
module CommentThreads {
  import opened Wrappers
  import opened Text
  import opened UserEntity
  import opened ExceptionHandler
  import opened NotificationService

  /** A row of the comments table. `createdAt`, `isActive` and `deletedAt`
      are the audit columns every entity inherits. */
  datatype Comment = Comment(
    id: Id,
    postId: Id,
    authorId: Id,
    parentId: Option<Id>,
    content: string,
    mentionedUsers: set<Id>,
    createdAt: int,
    isActive: bool,
    deletedAt: Option<int>)

  /** No two comments of the list share an id. */
  predicate DistinctIds(cs: seq<Comment>)
  {
    forall i, j :: 0 <= i < |cs| && 0 <= j < |cs| && cs[i].id == cs[j].id ==> i == j
  }

  /** A comment numbered past every stored one keeps the ids distinct. */
  lemma AppendFreshComment(cs: seq<Comment>, c: Comment, next: nat)
    requires DistinctIds(cs) && (forall x :: x in cs ==> x.id < next) && c.id == next
    ensures DistinctIds(cs + [c]) && forall x :: x in cs + [c] ==> x.id < next + 1
  {
    var r := cs + [c];
    forall i, j | 0 <= i < |r| && 0 <= j < |r| && r[i].id == r[j].id ensures i == j {
      if i < |cs| { assert r[i] in cs; }
      if j < |cs| { assert r[j] in cs; }
    }
  }

  function IdsOf(cs: seq<Comment>): set<Id>
  {
    set c | c in cs :: c.id
  }

  /* ---------- buildCommentTree ---------- */

  /** The comments among the first `n` of the list that have no parent, in
      list order. */
  function RootsUpTo(all: seq<Comment>, n: nat): seq<Comment>
    requires n <= |all|
  {
    if n == 0 then []
    else RootsUpTo(all, n - 1) + (if all[n - 1].parentId.None? then [all[n - 1]] else [])
  }

  /** The comments among the first `n` of the list whose parent is `p`, in
      list order. */
  function ChildrenUpTo(all: seq<Comment>, n: nat, p: Id): seq<Comment>
    requires n <= |all|
  {
    if n == 0 then []
    else ChildrenUpTo(all, n - 1, p) + (if all[n - 1].parentId == Some(p) then [all[n - 1]] else [])
  }

  /** The comments without a parent, in list order. */
  function RootsOf(all: seq<Comment>): seq<Comment>
  {
    RootsUpTo(all, |all|)
  }

  /** The comments whose parent is `p`, in list order. */
  function ChildrenOf(all: seq<Comment>, p: Id): seq<Comment>
  {
    ChildrenUpTo(all, |all|, p)
  }

  /** Newest first: `createdAt` never increases along the list. */
  predicate NewestFirst(s: seq<Comment>)
  {
    forall i, j :: 0 <= i < j < |s| ==> s[i].createdAt >= s[j].createdAt
  }

  /** Inserts `c` into a newest-first list just before the first element
      that is not strictly newer, so that `c` goes in front of the equally
      old elements that follow it in the input. */
  function InsertNewest(c: Comment, s: seq<Comment>): (r: seq<Comment>)
    ensures multiset(r) == multiset(s) + multiset{c}
    ensures |r| == |s| + 1
  {
    if s == [] then [c]
    else if c.createdAt >= s[0].createdAt then [c] + s
    else
      assert s == [s[0]] + s[1..];
      [s[0]] + InsertNewest(c, s[1..])
  }

  lemma ConsNewestFirst(x: Comment, t: seq<Comment>)
    requires NewestFirst(t) && (t == [] || x.createdAt >= t[0].createdAt)
    ensures NewestFirst([x] + t)
  {
  }

  lemma {:induction false} InsertNewestSorted(c: Comment, s: seq<Comment>)
    requires NewestFirst(s)
    ensures NewestFirst(InsertNewest(c, s))
  {
    if s != [] && c.createdAt < s[0].createdAt {
      InsertNewestSorted(c, s[1..]);
      ConsNewestFirst(s[0], InsertNewest(c, s[1..]));
    } else {
      ConsNewestFirst(c, s);
    }
  }

  /** The stable newest-first sort of `roots.sort(b.createdAt compareTo
      a.createdAt)`: inserting from the back keeps, among equally old
      comments, the order of the input (`SortNewestFirstStable`). */
  function SortNewestFirst(s: seq<Comment>): (r: seq<Comment>)
    ensures NewestFirst(r)
    ensures multiset(r) == multiset(s)
    ensures |r| == |s|
  {
    if s == [] then []
    else
      assert s == [s[0]] + s[1..];
      InsertNewestSorted(s[0], SortNewestFirst(s[1..]));
      InsertNewest(s[0], SortNewestFirst(s[1..]))
  }

  /** The comments of `s` created at time `t`, in list order. */
  function CreatedAt(s: seq<Comment>, t: int): seq<Comment>
  {
    if s == [] then [] else (if s[0].createdAt == t then [s[0]] else []) + CreatedAt(s[1..], t)
  }

  /** Inserting `c` puts it in front of the comments as old as it and
      leaves the order of every group of equally old comments alone. */
  lemma {:induction false} InsertNewestTies(c: Comment, s: seq<Comment>, t: int)
    ensures CreatedAt(InsertNewest(c, s), t) == (if c.createdAt == t then [c] else []) + CreatedAt(s, t)
  {
    var r := InsertNewest(c, s);
    var own := if c.createdAt == t then [c] else [];
    if s == [] {
      assert r == [c];
      assert r[1..] == [];
    } else if c.createdAt >= s[0].createdAt {
      assert r == [c] + s;
      assert r[1..] == s;
    } else {
      var rest := InsertNewest(c, s[1..]);
      var head := if s[0].createdAt == t then [s[0]] else [];
      assert r == [s[0]] + rest;
      assert r[1..] == rest;
      InsertNewestTies(c, s[1..], t);
      assert CreatedAt(r, t) == head + (own + CreatedAt(s[1..], t));
      assert head == [] || own == [];
      assert CreatedAt(s, t) == head + CreatedAt(s[1..], t);
    }
  }

  /** The sort is stable: for every creation time, the comments created
      then come out in the order they went in. */
  lemma {:induction false} SortNewestFirstStable(s: seq<Comment>, t: int)
    ensures CreatedAt(SortNewestFirst(s), t) == CreatedAt(s, t)
  {
    if s != [] {
      SortNewestFirstStable(s[1..], t);
      InsertNewestTies(s[0], SortNewestFirst(s[1..]), t);
    }
  }

  /** The result of `buildCommentTree`: the root comments and, per comment
      id of the input, the list of its replies. */
  datatype CommentTree = CommentTree(roots: seq<Comment>, replies: map<Id, seq<Comment>>)

  /** `buildCommentTree`: the first pass gives every comment an empty reply
      list, the second appends each comment to the roots or to its parent's
      reply list when the parent is in the input, and the roots are finally
      sorted newest first. */
  method BuildCommentTree(all: seq<Comment>) returns (tree: CommentTree)
    ensures tree.replies.Keys == IdsOf(all)
    ensures forall p :: p in tree.replies ==> tree.replies[p] == ChildrenOf(all, p)
    ensures tree.roots == SortNewestFirst(RootsOf(all))
  {
    var replies: map<Id, seq<Comment>> := map[];
    var i := 0;
    while i < |all|
      invariant i <= |all|
      invariant replies.Keys == IdsOf(all[..i])
      invariant forall p :: p in replies ==> replies[p] == []
    {
      assert all[..i + 1] == all[..i] + [all[i]];
      replies := replies[all[i].id := []];
      i := i + 1;
    }
    assert all[..i] == all;
    ghost var ids := replies.Keys;
    var roots: seq<Comment> := [];
    i := 0;
    while i < |all|
      invariant i <= |all|
      invariant replies.Keys == ids
      invariant roots == RootsUpTo(all, i)
      invariant forall p :: p in replies ==> replies[p] == ChildrenUpTo(all, i, p)
    {
      var entity := all[i];
      if entity.parentId.None? {
        roots := roots + [entity];
      } else if entity.parentId.value in replies {
        var p := entity.parentId.value;
        replies := replies[p := replies[p] + [entity]];
      }
      i := i + 1;
    }
    tree := CommentTree(SortNewestFirst(roots), replies);
  }

  /** Every root among the first `n` is a parentless comment occurring
      there as often as among the first `n`. */
  lemma {:induction false} RootsUpToCount(all: seq<Comment>, n: nat)
    requires n <= |all|
    ensures forall c: Comment :: multiset(RootsUpTo(all, n))[c] ==
                                 if c.parentId.None? then multiset(all[..n])[c] else 0
  {
    if n > 0 {
      RootsUpToCount(all, n - 1);
      assert all[..n] == all[..n - 1] + [all[n - 1]];
    }
  }

  lemma {:induction false} ChildrenUpToCount(all: seq<Comment>, n: nat, p: Id)
    requires n <= |all|
    ensures forall c: Comment :: multiset(ChildrenUpTo(all, n, p))[c] ==
                                 if c.parentId == Some(p) then multiset(all[..n])[c] else 0
  {
    if n > 0 {
      ChildrenUpToCount(all, n - 1, p);
      assert all[..n] == all[..n - 1] + [all[n - 1]];
    }
  }

  /** The roots are exactly the parentless comments of the input, each as
      often as in the input, newest first. */
  lemma RootsAreParentless(all: seq<Comment>)
    ensures var roots := SortNewestFirst(RootsOf(all));
            NewestFirst(roots) &&
            (forall c :: c in roots <==> c in all && c.parentId.None?) &&
            (forall c: Comment :: c.parentId.None? ==> multiset(roots)[c] == multiset(all)[c])
  {
    RootsUpToCount(all, |all|);
    assert all[..|all|] == all;
  }

  /** A comment of the list occurs once in it when ids are distinct. */
  lemma {:induction false} OnceInDistinct(all: seq<Comment>, c: Comment)
    requires DistinctIds(all) && c in all
    ensures multiset(all)[c] == 1
  {
    var init := all[..|all| - 1];
    var last := all[|all| - 1];
    assert all == init + [last];
    assert DistinctIds(init);
    if c == last {
      assert c !in init;
    } else {
      OnceInDistinct(init, c);
    }
  }

  /** Placement of a reply: with distinct ids, a comment with a parent is
      not among the roots, is exactly once in its parent's reply list and is
      in no other reply list. When the parent is missing from the input,
      its list is not in the tree, so the comment appears nowhere. */
  lemma ReplyPlacement(all: seq<Comment>, c: Comment)
    requires DistinctIds(all) && c in all && c.parentId.Some?
    ensures c !in RootsOf(all)
    ensures multiset(ChildrenOf(all, c.parentId.value))[c] == 1
    ensures forall q :: q != c.parentId.value ==> c !in ChildrenOf(all, q)
  {
    assert all[..|all|] == all;
    OnceInDistinct(all, c);
    RootsUpToCount(all, |all|);
    ChildrenUpToCount(all, |all|, c.parentId.value);
    forall q | q != c.parentId.value ensures c !in ChildrenOf(all, q) {
      ChildrenUpToCount(all, |all|, q);
    }
  }

  /** With distinct ids, `findById` finds a comment of the list at its own
      position. */
  lemma IndexOfDistinct(all: seq<Comment>, m: nat)
    requires DistinctIds(all) && m < |all|
    ensures IndexOfComment(all, all[m].id) == m
  {
    assert all[m].id in IdsOf(all);
  }

  lemma {:induction false} ChildrenUpToOrder(all: seq<Comment>, n: nat, p: Id)
    requires DistinctIds(all) && n <= |all|
    ensures forall k :: 0 <= k < |ChildrenUpTo(all, n, p)| ==> IndexOfComment(all, ChildrenUpTo(all, n, p)[k].id) < n
    ensures forall i, j :: 0 <= i < j < |ChildrenUpTo(all, n, p)| ==>
              IndexOfComment(all, ChildrenUpTo(all, n, p)[i].id) < IndexOfComment(all, ChildrenUpTo(all, n, p)[j].id)
  {
    if n > 0 {
      ChildrenUpToOrder(all, n - 1, p);
      IndexOfDistinct(all, n - 1);
      var before := ChildrenUpTo(all, n - 1, p);
      var ch := ChildrenUpTo(all, n, p);
      assert forall k :: 0 <= k < |before| ==> ch[k] == before[k];
      assert |ch| > |before| ==> ch[|before|] == all[n - 1];
    }
  }

  /** Every reply list keeps the relative order of the input list: with
      distinct ids, an earlier reply sits earlier in the input. */
  lemma RepliesKeepInputOrder(all: seq<Comment>, p: Id)
    requires DistinctIds(all)
    ensures forall i, j :: 0 <= i < j < |ChildrenOf(all, p)| ==>
              IndexOfComment(all, ChildrenOf(all, p)[i].id) < IndexOfComment(all, ChildrenOf(all, p)[j].id)
  {
    ChildrenUpToOrder(all, |all|, p);
  }

  /* ---------- truncateMessage ---------- */

  /** `truncateMessage`: a message of at most `maxLength` characters is
      kept, a longer one is cut to `maxLength` characters and "..." is
      appended. */
  function TruncateMessage(message: string, maxLength: nat): (r: string)
    ensures |message| <= maxLength ==> r == message
    ensures |message| > maxLength ==> r == message[..maxLength] + "..."
    ensures |r| <= maxLength + 3
  {
    if |message| <= maxLength then message else message[..maxLength] + "..."
  }

  /** The length of the result is the smaller of the message's length and
      `maxLength` + 3, and the result starts with the first
      `min(|message|, maxLength)` characters of the message. */
  lemma TruncateKeepsPrefix(message: string, maxLength: nat)
    ensures var r := TruncateMessage(message, maxLength);
            var k := if |message| <= maxLength then |message| else maxLength;
            k <= |r| && r[..k] == message[..k]
  {
  }

  /* ---------- extractMentions ---------- */

  /** Length of the run of `\w` characters that starts at `i`. */
  function WordRunLength(s: string, i: nat): (n: nat)
    requires i <= |s|
    ensures i + n <= |s|
    ensures forall k :: i <= k < i + n ==> IsWordChar(s[k])
    ensures i + n == |s| || !IsWordChar(s[i + n])
    decreases |s| - i
  {
    if i < |s| && IsWordChar(s[i]) then 1 + WordRunLength(s, i + 1) else 0
  }

  /** A match of `@(\w+)` starts at `i`. */
  predicate MentionAt(s: string, i: nat)
  {
    i + 1 < |s| && s[i] == '@' && IsWordChar(s[i + 1])
  }

  /** The group of the match that starts at `i`: the longest `\w` run after
      the `@`. */
  function MentionGroup(s: string, i: nat): (t: string)
    requires MentionAt(s, i)
    ensures |t| >= 1
  {
    s[i + 1..i + 1 + WordRunLength(s, i + 1)]
  }

  /** The groups of the successive `find()` matches of `@(\w+)` from
      position `i` on: each search resumes after the previous match. */
  function MentionsFrom(s: string, i: nat): seq<string>
    requires i <= |s|
    decreases |s| - i
  {
    if i + 1 >= |s| then []
    else if MentionAt(s, i) then [MentionGroup(s, i)] + MentionsFrom(s, i + 1 + WordRunLength(s, i + 1))
    else MentionsFrom(s, i + 1)
  }

  function MentionTokens(content: string): seq<string>
  {
    MentionsFrom(content, 0)
  }

  /** The tokens found from position `i` are exactly the groups of the
      matches that start at or after `i`: every `@` followed by a word
      character starts a match, since `@` never belongs to a `\w` run. */
  lemma {:induction false} MentionsFromExactly(s: string, i: nat)
    requires i <= |s|
    ensures forall t :: t in MentionsFrom(s, i) <==> exists j :: i <= j && MentionAt(s, j) && t == MentionGroup(s, j)
    decreases |s| - i
  {
    if i + 1 >= |s| {
    } else if MentionAt(s, i) {
      var next := i + 1 + WordRunLength(s, i + 1);
      MentionsFromExactly(s, next);
      forall j | i < j < next ensures !MentionAt(s, j) {
        assert IsWordChar(s[j]);
      }
    } else {
      MentionsFromExactly(s, i + 1);
    }
  }

  /** A token is a mention exactly when it is the group of some match. */
  lemma MentionTokensExactly(content: string)
    ensures forall t :: t in MentionTokens(content) <==>
              exists j :: MentionAt(content, j) && t == MentionGroup(content, j)
  {
    MentionsFromExactly(content, 0);
  }

  /** The ids of the users the tokens name, resolved through
      `findByUsername`; unknown names are ignored. */
  function Resolve(users: seq<User>, tokens: seq<string>): (r: set<Id>)
    ensures forall id :: id in r ==> HasUser(users, id)
  {
    if tokens == [] then {}
    else
      var found := FindByUsername(users, tokens[|tokens| - 1]);
      var rest := Resolve(users, tokens[..|tokens| - 1]);
      if found.Some? then
        assert users[IndexOfUser(users, found.value.id)].id == found.value.id;
        rest + {found.value.id}
      else rest
  }

  /** The users `extractMentions` collects for the content. */
  function MentionedIds(users: seq<User>, content: string): set<Id>
  {
    Resolve(users, MentionTokens(content))
  }

  lemma {:induction false} ResolveExactly(users: seq<User>, tokens: seq<string>)
    requires UniqueIds(users) && UniqueUsernames(users)
    ensures forall id :: id in Resolve(users, tokens) <==>
              exists k :: 0 <= k < |users| && users[k].id == id && users[k].username in tokens
  {
    if tokens != [] {
      var init := tokens[..|tokens| - 1];
      var last := tokens[|tokens| - 1];
      ResolveExactly(users, init);
      assert tokens == init + [last];
      forall id ensures id in Resolve(users, tokens) <==>
                        exists k :: 0 <= k < |users| && users[k].id == id && users[k].username in tokens {
        if exists k :: 0 <= k < |users| && users[k].id == id && users[k].username in tokens {
          var k :| 0 <= k < |users| && users[k].id == id && users[k].username in tokens;
          if users[k].username !in init {
            var found := FindByUsername(users, last);
            assert found.Some?;
            var k' :| 0 <= k' < |users| && users[k'] == found.value;
          }
        }
      }
    }
  }

  /** With usernames unique, `extractMentions` yields exactly the users
      whose username is some `@(\w+)` token of the content; repeated tokens
      yield the user once, since the result is a set. */
  lemma MentionedIdsExactly(users: seq<User>, content: string)
    requires UniqueIds(users) && UniqueUsernames(users)
    ensures forall id :: id in MentionedIds(users, content) <==>
              exists k :: 0 <= k < |users| && users[k].id == id && users[k].username in MentionTokens(content)
  {
    ResolveExactly(users, MentionTokens(content));
  }

  /** `extractMentions`: scans the content match by match and collects the
      users found by username. */
  method ExtractMentions(users: seq<User>, content: string) returns (mentioned: set<Id>)
    ensures mentioned == MentionedIds(users, content)
  {
    mentioned := {};
    var pos := 0;
    ghost var seen: seq<string> := [];
    while pos < |content|
      invariant pos <= |content|
      invariant MentionTokens(content) == seen + MentionsFrom(content, pos)
      invariant mentioned == Resolve(users, seen)
      decreases |content| - pos
    {
      if MentionAt(content, pos) {
        var username := MentionGroup(content, pos);
        var found := FindByUsername(users, username);
        if found.Some? {
          mentioned := mentioned + {found.value.id};
        }
        assert (seen + [username])[..|seen|] == seen;
        seen := seen + [username];
        pos := pos + 1 + WordRunLength(content, pos + 1);
      } else {
        pos := pos + 1;
      }
    }
    assert seen == seen + [];
  }

  /* ---------- mention notifications ---------- */

  /** The text of a mention notification. */
  function MentionMessage(author: User, content: string): (r: string)
    ensures var prefix := FullName(author) + " sizi bir yorumda etiketledi: \"";
            |prefix| < |r| && r[..|prefix|] == prefix && r[|r| - 1] == '"'
  {
    var prefix := FullName(author) + " sizi bir yorumda etiketledi: \"";
    var r := prefix + TruncateMessage(content, 50) + "\"";
    assert r[..|prefix|] == prefix;
    r
  }

  /** The notification a mention of comment `commentId` on the post
      `postSlug` sends to `recipient`. */
  function MentionNotification(recipient: Id, message: string, postSlug: string, commentId: Id): Notification
  {
    Notification(recipient, MENTION, message, false, Some(postSlug), Some(commentId))
  }

  /** `after` is `before` with one unread MENTION notification to each of
      `targets` and nothing else: the new notifications take exactly the
      next |targets| ids, no target gets two, every target's counter rises
      by one and every other row is unchanged. */
  ghost predicate MentionsDelivered(before: Db, after: Db, targets: set<Id>,
                                    message: string, postSlug: string, commentId: Id)
  {
    after.nextId == before.nextId + |targets| &&
    (forall k :: k in after.notifications <==> k in before.notifications || before.nextId <= k < after.nextId) &&
    (forall k :: k in before.notifications ==> after.notifications[k] == before.notifications[k]) &&
    (forall k :: before.nextId <= k < after.nextId ==>
       k in after.notifications && after.notifications[k].userId in targets &&
       after.notifications[k] == MentionNotification(after.notifications[k].userId, message, postSlug, commentId)) &&
    (forall u :: u in targets ==>
       exists k :: before.nextId <= k < after.nextId && k in after.notifications && after.notifications[k].userId == u) &&
    (forall k1, k2 ::
       (before.nextId <= k1 < after.nextId && before.nextId <= k2 < after.nextId &&
        after.notifications[k1].userId == after.notifications[k2].userId) ==> k1 == k2) &&
    CountersRaised(before, after, targets)
  }

  /** The "never notify yourself" rule: when the targets are the mentioned
      users minus the author, the author gets no new notification and keeps
      their counter, while every other mentioned user gets one. */
  lemma SelfMentionIgnored(before: Db, after: Db, mentioned: set<Id>, authorId: Id,
                           message: string, postSlug: string, commentId: Id)
    requires MentionsDelivered(before, after, mentioned - {authorId}, message, postSlug, commentId)
    ensures forall k :: before.nextId <= k < after.nextId ==> after.notifications[k].userId != authorId
    ensures forall j :: 0 <= j < |before.users| && before.users[j].id == authorId ==> after.users[j] == before.users[j]
    ensures forall u :: u in mentioned && u != authorId ==>
              exists k :: before.nextId <= k < after.nextId && k in after.notifications &&
                          after.notifications[k].userId == u
  {
    forall j | 0 <= j < |before.users| && before.users[j].id == authorId
      ensures after.users[j] == before.users[j]
    {
      assert after.users[j] == WithCounter(before.users[j], before.users[j].unreadNotificationCount);
    }
    forall u | u in mentioned && u != authorId
      ensures exists k :: before.nextId <= k < after.nextId && k in after.notifications &&
                          after.notifications[k].userId == u
    {
      assert u in mentioned - {authorId};
    }
  }

  /** Nothing delivered: the state is unchanged. */
  lemma NoTargetsNoChange(before: Db, after: Db, message: string, postSlug: string, commentId: Id)
    requires MentionsDelivered(before, after, {}, message, postSlug, commentId)
    ensures after == before
  {
    assert after.notifications == before.notifications;
    assert forall j :: 0 <= j < |before.users| ==> after.users[j] == before.users[j];
    assert after.users == before.users;
  }

  /** Exactly the counters of the users in `done` are one higher; the rows
      are otherwise unchanged. */
  ghost predicate CountersRaised(start: Db, cur: Db, done: set<Id>)
  {
    |cur.users| == |start.users| &&
    (forall j :: 0 <= j < |start.users| ==>
       cur.users[j] == WithCounter(start.users[j], start.users[j].unreadNotificationCount +
                                                  (if start.users[j].id in done then 1 else 0)))
  }

  /** The state after `createNotification` was called, in this order, for
      each recipient of `order`. */
  ghost function DeliverAll(db: Db, order: seq<Id>, message: string, postSlug: string, commentId: Id): (r: Db)
    requires forall u :: u in order ==> HasUser(db.users, u)
    ensures |r.users| == |db.users|
    ensures forall j :: 0 <= j < |db.users| ==> r.users[j].id == db.users[j].id
    decreases |order|
  {
    if order == [] then db
    else
      var init := order[..|order| - 1];
      var u := order[|order| - 1];
      assert u in order;
      assert forall v :: v in init ==> v in order;
      var prev := DeliverAll(db, init, message, postSlug, commentId);
      assert HasUser(prev.users, u) by {
        assert HasUser(db.users, u);
        var j :| 0 <= j < |db.users| && db.users[j].id == u;
        assert prev.users[j].id == u;
      }
      AfterCreate(prev, u, MENTION, message, Some(postSlug), Some(commentId))
  }

  function Elems(order: seq<Id>): set<Id>
  {
    set u | u in order
  }

  predicate Distinct(order: seq<Id>)
  {
    forall i, j :: 0 <= i < j < |order| ==> order[i] != order[j]
  }

  /** The last recipient of a list without repeats is new to the rest. */
  lemma SnocFacts(order: seq<Id>)
    requires order != [] && Distinct(order)
    ensures var init := order[..|order| - 1];
            Distinct(init) && order[|order| - 1] !in init && order[|order| - 1] in order &&
            (forall v :: v in init ==> v in order) &&
            Elems(order) == Elems(init) + {order[|order| - 1]}
  {
    var init := order[..|order| - 1];
    assert order == init + [order[|order| - 1]];
  }

  lemma CountersStep(start: Db, cur: Db, done: set<Id>, u: Id, message: string, postSlug: string, commentId: Id)
    requires UniqueIds(start.users) && CountersRaised(start, cur, done)
    requires u !in done && HasUser(cur.users, u)
    ensures CountersRaised(start, AfterCreate(cur, u, MENTION, message, Some(postSlug), Some(commentId)), done + {u})
  {
    var next := AfterCreate(cur, u, MENTION, message, Some(postSlug), Some(commentId));
    var i := IndexOfUser(cur.users, u);
    assert start.users[i].id == u;
    forall j | 0 <= j < |start.users|
      ensures next.users[j] == WithCounter(start.users[j], start.users[j].unreadNotificationCount +
                                                          (if start.users[j].id in done + {u} then 1 else 0))
    {
      if j != i {
        assert start.users[j].id != u;
      }
    }
  }

  lemma {:induction false} DeliverAllCounters(start: Db, order: seq<Id>, message: string, postSlug: string, commentId: Id)
    requires UniqueIds(start.users) && Distinct(order)
    requires forall u :: u in order ==> HasUser(start.users, u)
    ensures CountersRaised(start, DeliverAll(start, order, message, postSlug, commentId), Elems(order))
    decreases |order|
  {
    if order == [] {
      assert forall j :: 0 <= j < |start.users| ==> start.users[j] == WithCounter(start.users[j], start.users[j].unreadNotificationCount);
    } else {
      var init := order[..|order| - 1];
      var u := order[|order| - 1];
      SnocFacts(order);
      DeliverAllCounters(start, init, message, postSlug, commentId);
      var prev := DeliverAll(start, init, message, postSlug, commentId);
      assert HasUser(prev.users, u) by {
        var j :| 0 <= j < |start.users| && start.users[j].id == u;
        assert prev.users[j].id == u;
      }
      CountersStep(start, prev, Elems(init), u, message, postSlug, commentId);
      assert DeliverAll(start, order, message, postSlug, commentId) ==
             AfterCreate(prev, u, MENTION, message, Some(postSlug), Some(commentId));
    }
  }

  /** One step of `DeliverAll`: the last recipient's notification takes
      the next id. */
  lemma DeliverAllLast(start: Db, order: seq<Id>, message: string, postSlug: string, commentId: Id)
    requires order != []
    requires forall u :: u in order ==> HasUser(start.users, u)
    ensures forall v :: v in order[..|order| - 1] ==> HasUser(start.users, v)
    ensures var prev := DeliverAll(start, order[..|order| - 1], message, postSlug, commentId);
            var r := DeliverAll(start, order, message, postSlug, commentId);
            r.nextId == prev.nextId + 1 &&
            r.notifications == prev.notifications[prev.nextId :=
                                 MentionNotification(order[|order| - 1], message, postSlug, commentId)]
  {
    assert forall v :: v in order[..|order| - 1] ==> v in order;
  }

  /** `DeliverAll` hands out the ids from `start.nextId` on and keeps every
      earlier notification. */
  lemma {:induction false} DeliverAllKeys(start: Db, order: seq<Id>, message: string, postSlug: string, commentId: Id)
    requires forall k :: k in start.notifications ==> k < start.nextId
    requires forall u :: u in order ==> HasUser(start.users, u)
    ensures var r := DeliverAll(start, order, message, postSlug, commentId);
            r.nextId == start.nextId + |order| &&
            (forall k :: k in r.notifications <==> k in start.notifications || start.nextId <= k < r.nextId) &&
            (forall k :: k in start.notifications ==> r.notifications[k] == start.notifications[k])
    decreases |order|
  {
    if order != [] {
      DeliverAllLast(start, order, message, postSlug, commentId);
      DeliverAllKeys(start, order[..|order| - 1], message, postSlug, commentId);
    }
  }

  /** The notification with id `start.nextId + m` goes to `order[m]`. */
  lemma {:induction false} DeliverAllNotifications(start: Db, order: seq<Id>, message: string, postSlug: string, commentId: Id)
    requires forall k :: k in start.notifications ==> k < start.nextId
    requires forall u :: u in order ==> HasUser(start.users, u)
    ensures forall m :: 0 <= m < |order| ==>
              start.nextId + m in DeliverAll(start, order, message, postSlug, commentId).notifications &&
              DeliverAll(start, order, message, postSlug, commentId).notifications[start.nextId + m]
                == MentionNotification(order[m], message, postSlug, commentId)
    decreases |order|
  {
    if order != [] {
      var init := order[..|order| - 1];
      DeliverAllLast(start, order, message, postSlug, commentId);
      DeliverAllKeys(start, init, message, postSlug, commentId);
      DeliverAllNotifications(start, init, message, postSlug, commentId);
      forall m | 0 <= m < |init|
        ensures order[m] == init[m]
      {
      }
    }
  }

  /** Calling `createNotification` once per recipient of a repetition-free
      `order` delivers exactly one mention to each of them. */
  lemma DeliverAllDelivers(start: Db, order: seq<Id>, message: string, postSlug: string, commentId: Id)
    requires Wellformed(start) && Distinct(order)
    requires forall u :: u in order ==> HasUser(start.users, u)
    ensures MentionsDelivered(start, DeliverAll(start, order, message, postSlug, commentId), Elems(order),
                              message, postSlug, commentId)
  {
    DeliverAllCounters(start, order, message, postSlug, commentId);
    DeliverAllKeys(start, order, message, postSlug, commentId);
    DeliverAllNotifications(start, order, message, postSlug, commentId);
    DistinctCard(order);
    DeliveredInOrder(start, DeliverAll(start, order, message, postSlug, commentId), order, message, postSlug, commentId);
  }

  lemma DeliveredInOrder(start: Db, r: Db, order: seq<Id>, message: string, postSlug: string, commentId: Id)
    requires Distinct(order) && |Elems(order)| == |order|
    requires CountersRaised(start, r, Elems(order))
    requires r.nextId == start.nextId + |order|
    requires forall k :: k in r.notifications <==> k in start.notifications || start.nextId <= k < r.nextId
    requires forall k :: k in start.notifications ==> r.notifications[k] == start.notifications[k]
    requires forall m :: 0 <= m < |order| ==>
               r.notifications[start.nextId + m] == MentionNotification(order[m], message, postSlug, commentId)
    ensures MentionsDelivered(start, r, Elems(order), message, postSlug, commentId)
  {
    var targets := Elems(order);
    forall k | start.nextId <= k < r.nextId
      ensures k in r.notifications && r.notifications[k].userId in targets &&
              r.notifications[k] == MentionNotification(r.notifications[k].userId, message, postSlug, commentId)
    {
      assert r.notifications[start.nextId + (k - start.nextId)] == MentionNotification(order[k - start.nextId], message, postSlug, commentId);
    }
    forall u | u in targets
      ensures exists k :: start.nextId <= k < r.nextId && k in r.notifications && r.notifications[k].userId == u
    {
      var m :| 0 <= m < |order| && order[m] == u;
      assert r.notifications[start.nextId + m].userId == u;
    }
    forall k1, k2 | start.nextId <= k1 < r.nextId && start.nextId <= k2 < r.nextId &&
                    r.notifications[k1].userId == r.notifications[k2].userId
      ensures k1 == k2
    {
      assert r.notifications[start.nextId + (k1 - start.nextId)].userId == order[k1 - start.nextId];
      assert r.notifications[start.nextId + (k2 - start.nextId)].userId == order[k2 - start.nextId];
    }
  }

  lemma {:induction false} DistinctCard(order: seq<Id>)
    requires Distinct(order)
    ensures |Elems(order)| == |order|
  {
    if order != [] {
      var init := order[..|order| - 1];
      var u := order[|order| - 1];
      DistinctCard(init);
      assert order == init + [u];
      assert u !in init;
      assert Elems(order) == Elems(init) + {u};
    }
  }

  /** Delivering keeps every user row, so a user who existed still exists. */
  lemma DeliverAllHasUser(start: Db, order: seq<Id>, u: Id, message: string, postSlug: string, commentId: Id)
    requires forall v :: v in order ==> HasUser(start.users, v)
    requires HasUser(start.users, u)
    ensures HasUser(DeliverAll(start, order, message, postSlug, commentId).users, u)
  {
    var j :| 0 <= j < |start.users| && start.users[j].id == u;
    assert DeliverAll(start, order, message, postSlug, commentId).users[j].id == u;
  }

  /** Delivering to one more recipient is one more `createNotification`. */
  lemma DeliverAllAppend(start: Db, order: seq<Id>, u: Id, message: string, postSlug: string, commentId: Id)
    requires forall v :: v in order ==> HasUser(start.users, v)
    requires HasUser(start.users, u)
    ensures forall v :: v in order + [u] ==> HasUser(start.users, v)
    ensures HasUser(DeliverAll(start, order, message, postSlug, commentId).users, u)
    ensures DeliverAll(start, order + [u], message, postSlug, commentId)
              == AfterCreate(DeliverAll(start, order, message, postSlug, commentId), u, MENTION, message,
                             Some(postSlug), Some(commentId))
  {
    DeliverAllHasUser(start, order, u, message, postSlug, commentId);
    assert (order + [u])[..|order|] == order;
  }

  lemma DistinctAppend(order: seq<Id>, u: Id)
    requires Distinct(order) && u !in order
    ensures Distinct(order + [u])
    ensures forall v :: v in order + [u] <==> v in order || v == u
  {
  }

  /** The notification loop of `createComment`: every mentioned user except
      the author gets a MENTION notification. The set is walked in an
      unspecified order. */
  method NotifyMentioned(notifier: NotificationService, mentioned: set<Id>, authorId: Id,
                         message: string, postSlug: string, commentId: Id)
    requires notifier.Valid()
    requires forall u :: u in mentioned ==> HasUser(notifier.users, u)
    modifies notifier
    ensures notifier.Valid()
    ensures MentionsDelivered(old(notifier.State()), notifier.State(), mentioned - {authorId},
                              message, postSlug, commentId)
  {
    ghost var start := notifier.State();
    ghost var targets := mentioned - {authorId};
    var todo := mentioned;
    ghost var order: seq<Id> := [];
    while todo != {}
      invariant todo <= mentioned
      invariant forall u :: u in order <==> u in targets && u !in todo
      invariant Distinct(order)
      invariant forall u :: u in order ==> HasUser(start.users, u)
      invariant notifier.Valid()
      invariant notifier.State() == DeliverAll(start, order, message, postSlug, commentId)
      decreases |todo|
    {
      var mentionedUser :| mentionedUser in todo;
      if mentionedUser != authorId {
        DeliverAllAppend(start, order, mentionedUser, message, postSlug, commentId);
        notifier.CreateNotification(mentionedUser, MENTION, message, Some(postSlug), Some(commentId));
        DistinctAppend(order, mentionedUser);
        order := order + [mentionedUser];
      }
      var left := todo - {mentionedUser};
      assert forall u :: u in order <==> u in targets && u !in left;
      todo := left;
    }
    DeliveredToTargets(start, order, targets, message, postSlug, commentId);
  }

  /** Delivering to a list without repeats that holds exactly the targets. */
  lemma DeliveredToTargets(start: Db, order: seq<Id>, targets: set<Id>, message: string, postSlug: string,
                           commentId: Id)
    requires Wellformed(start) && Distinct(order)
    requires forall u :: u in order ==> HasUser(start.users, u)
    requires forall u :: u in order <==> u in targets
    ensures MentionsDelivered(start, DeliverAll(start, order, message, postSlug, commentId), targets,
                              message, postSlug, commentId)
  {
    DeliverAllDelivers(start, order, message, postSlug, commentId);
    assert Elems(order) == targets;
  }

  /* ---------- createComment lookups ---------- */

  /** Position of the comment with the given id, or -1 (`findById`). */
  function IndexOfComment(comments: seq<Comment>, id: Id): (r: int)
    ensures -1 <= r < |comments|
    ensures r >= 0 ==> comments[r].id == id
    ensures r < 0 <==> id !in IdsOf(comments)
  {
    if |comments| == 0 then -1
    else if comments[|comments| - 1].id == id then |comments| - 1
    else
      var init := comments[..|comments| - 1];
      assert comments == init + [comments[|comments| - 1]];
      IndexOfComment(init, id)
  }

  /** What `createComment` has established once its lookups succeed. */
  datatype Checked = Checked(postId: Id, author: User, parentId: Option<Id>)

  /** The lookups of `createComment`, in order: the post by slug, then the
      author (by id, or the first user when no id is given), then the
      parent comment when one is named. */
  function CheckCreate(postSlugs: map<string, Id>, users: seq<User>, comments: seq<Comment>,
                       postSlug: string, authorId: Option<Id>, parentId: Option<Id>): Result<Checked, Failure>
  {
    if postSlug !in postSlugs then Err(ResourceNotFound("Post", "slug"))
    else
      var author := if authorId.Some? then FindUser(users, authorId.value) else FirstUser(users);
      if author.None? then
        Err(if authorId.Some? then ResourceNotFound("User", "id") else NoUsersFound)
      else if parentId.Some? && IndexOfComment(comments, parentId.value) < 0 then
        Err(ResourceNotFound("Comment", "id"))
      else Ok(Checked(postSlugs[postSlug], author.value, parentId))
  }

  /** The failures of `createComment`: not-found for an unknown slug, an
      unknown author id or an unknown parent id, checked in that order,
      and NoUsersFound when no author id is given and there are no users;
      otherwise the lookups succeed with the post's id and the author. */
  lemma CheckCreateOutcomes(postSlugs: map<string, Id>, users: seq<User>, comments: seq<Comment>,
                            postSlug: string, authorId: Option<Id>, parentId: Option<Id>)
    ensures var r := CheckCreate(postSlugs, users, comments, postSlug, authorId, parentId);
            (postSlug !in postSlugs ==> r == Err(ResourceNotFound("Post", "slug"))) &&
            (postSlug in postSlugs && authorId.Some? && !HasUser(users, authorId.value) ==>
               r == Err(ResourceNotFound("User", "id"))) &&
            (postSlug in postSlugs && authorId.None? && users == [] ==> r == Err(NoUsersFound)) &&
            ((postSlug in postSlugs && (if authorId.Some? then HasUser(users, authorId.value) else users != []) &&
              parentId.Some? && parentId.value !in IdsOf(comments)) ==> r == Err(ResourceNotFound("Comment", "id"))) &&
            (r.Ok? <==> postSlug in postSlugs && (if authorId.Some? then HasUser(users, authorId.value) else users != []) &&
                        (parentId.Some? ==> parentId.value in IdsOf(comments))) &&
            (r.Ok? ==> r.value.postId == postSlugs[postSlug] && r.value.author in users &&
                       (authorId.Some? ==> r.value.author.id == authorId.value) &&
                       (authorId.None? ==> r.value.author == users[0]))
  {
  }

  /** The comment `createComment` saves. */
  function NewComment(id: Id, checked: Checked, content: string, mentioned: set<Id>, now: int): Comment
  {
    Comment(id, checked.postId, checked.author.id, checked.parentId, content, mentioned, now, true, None)
  }

  /* ---------- softDeleteComment ---------- */

  const ONLY_ADMINS := "Only admins can delete comments"

  /** `softDeleteComment`: the acting user must exist and be an admin, and
      only then is the comment looked up; it is kept, marked inactive and
      stamped with the deletion time. */
  function AfterSoftDelete(users: seq<User>, comments: seq<Comment>, commentId: Id, adminUserId: Id,
                           now: int): (Option<Failure>, seq<Comment>)
  {
    var admin := FindUser(users, adminUserId);
    if admin.None? then (Some(ResourceNotFound("User", "id")), comments)
    else if admin.value.role != ADMIN then (Some(Runtime(Some(ONLY_ADMINS))), comments)
    else
      var i := IndexOfComment(comments, commentId);
      if i < 0 then (Some(ResourceNotFound("Comment", "id")), comments)
      else (None, comments[i := comments[i].(isActive := false, deletedAt := Some(now))])
  }

  /** The active comments of a post, in table order
      (`findByPostIdAndIsActiveTrue`). */
  function ActiveCommentsOf(comments: seq<Comment>, postId: Id): seq<Comment>
  {
    if comments == [] then []
    else
      var last := comments[|comments| - 1];
      ActiveCommentsOf(comments[..|comments| - 1], postId) + (if last.postId == postId && last.isActive then [last] else [])
  }

  /** The query returns the active comments of the post and nothing else. */
  lemma {:induction false} ActiveMembership(comments: seq<Comment>)
    ensures forall p: Id, c :: c in ActiveCommentsOf(comments, p) <==> c in comments && c.postId == p && c.isActive
  {
    if comments != [] {
      ActiveMembership(comments[..|comments| - 1]);
      assert comments == comments[..|comments| - 1] + [comments[|comments| - 1]];
    }
  }

  /** A reply listed under any parent is a comment of the input. */
  lemma ChildIsInput(all: seq<Comment>, p: Id, c: Comment)
    requires c in ChildrenOf(all, p)
    ensures c in all
  {
    ChildrenUpToCount(all, |all|, p);
    assert multiset(ChildrenOf(all, p))[c] > 0;
    assert all[..|all|] == all;
  }

  /** The tree read back for a post holds only that post's active comments:
      every root and every reply is an active comment of the post. */
  lemma TreeOfActiveComments(comments: seq<Comment>, postId: Id)
    ensures forall c :: c in SortNewestFirst(RootsOf(ActiveCommentsOf(comments, postId))) ==>
              c in comments && c.postId == postId && c.isActive
    ensures forall p: Id, c :: c in ChildrenOf(ActiveCommentsOf(comments, postId), p) ==>
              c in comments && c.postId == postId && c.isActive
  {
    var active := ActiveCommentsOf(comments, postId);
    ActiveMembership(comments);
    RootsAreParentless(active);
    forall p: Id, c | c in ChildrenOf(active, p)
      ensures c in active
    {
      ChildIsInput(active, p, c);
    }
  }

  /** Soft deletion: an unknown user is not-found and a non-admin gets the
      runtime error, even for a comment that does not exist, and nothing
      changes; an admin's call on an unknown comment is not-found; otherwise
      the number of stored comments is the same, the comment keeps every
      column but `isActive` (now false) and `deletedAt` (now set), no other
      comment changes, and the comment is no longer among its post's active
      comments. */
  lemma SoftDeleteOutcomes(users: seq<User>, comments: seq<Comment>, commentId: Id, adminUserId: Id, now: int)
    requires DistinctIds(comments)
    ensures var (err, r) := AfterSoftDelete(users, comments, commentId, adminUserId, now);
            (!HasUser(users, adminUserId) ==> err == Some(ResourceNotFound("User", "id")) && r == comments) &&
            (HasUser(users, adminUserId) && FindUser(users, adminUserId).value.role != ADMIN ==>
               err == Some(Runtime(Some(ONLY_ADMINS))) && r == comments) &&
            ((HasUser(users, adminUserId) && FindUser(users, adminUserId).value.role == ADMIN &&
              commentId !in IdsOf(comments)) ==> err == Some(ResourceNotFound("Comment", "id")) && r == comments) &&
            (err.None? ==>
               |r| == |comments| && DistinctIds(r) &&
               (forall j :: 0 <= j < |comments| && comments[j].id != commentId ==> r[j] == comments[j]) &&
               (forall j :: 0 <= j < |comments| && comments[j].id == commentId ==>
                  r[j] == comments[j].(isActive := false, deletedAt := Some(now))) &&
               (forall p, c :: c in ActiveCommentsOf(r, p) ==> c.id != commentId))
  {
    var (err, r) := AfterSoftDelete(users, comments, commentId, adminUserId, now);
    if err.None? {
      ActiveMembership(r);
      var i := IndexOfComment(comments, commentId);
      forall p, c | c in ActiveCommentsOf(r, p) ensures c.id != commentId {
        var j :| 0 <= j < |r| && r[j] == c;
        if j != i { assert comments[j].id != commentId; }
      }
    }
  }
}
