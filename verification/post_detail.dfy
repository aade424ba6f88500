/** The post page: the reading time estimated from the content's words, and
    the related posts of the post's first category. */
module PostDetail {
  import opened Wrappers
  import opened Text
  import opened FrontendTypes

  predicate NoSpace(s: string)
  {
    forall i :: 0 <= i < |s| ==> !IsSpace(s[i])
  }

  /** `split(/\s+/)`: the pieces between maximal white-space runs, with an
      empty piece before a leading run and after a trailing one. */
  function SplitSpaceRuns(s: string): (r: seq<string>)
    ensures |r| >= 1
    ensures r[0] != [] <==> s != [] && !IsSpace(s[0])
    decreases |s|
  {
    if s == [] then [""]
    else if IsSpace(s[0]) then [""] + SplitSpaceRuns(TrimStart(s))
    else
      var rest := SplitSpaceRuns(s[1..]);
      [[s[0]] + rest[0]] + rest[1..]
  }

  /** No piece holds white space. */
  lemma {:induction false} PiecesWithoutSpace(s: string)
    ensures forall k :: 0 <= k < |SplitSpaceRuns(s)| ==> NoSpace(SplitSpaceRuns(s)[k])
    decreases |s|
  {
    if s != [] {
      if IsSpace(s[0]) {
        PiecesWithoutSpace(TrimStart(s));
      } else {
        PiecesWithoutSpace(s[1..]);
        var rest := SplitSpaceRuns(s[1..]);
        assert NoSpace(rest[0]);
        assert NoSpace([s[0]] + rest[0]);
      }
    }
  }

  lemma SplitWord(w: string)
    requires NoSpace(w)
    ensures SplitSpaceRuns(w) == [w]
  {
    if w != [] {
      SplitWord(w[1..]);
      assert [w[0]] + w[1..] == w;
    }
  }

  /** Leading white space goes, the last character stays. */
  lemma TrimStartKeepsLast(s: string)
    requires s != [] && !IsSpace(s[|s| - 1])
    ensures TrimStart(s) != [] && TrimStart(s)[|TrimStart(s)| - 1] == s[|s| - 1]
  {
    if IsSpace(s[0]) {
      TrimStartKeepsLast(s[1..]);
    }
  }

  /** When the text does not end in white space, no piece after the first
      is empty. */
  lemma {:induction false} InnerPiecesNonEmpty(s: string)
    requires s == [] || !IsSpace(s[|s| - 1])
    ensures forall k :: 0 < k < |SplitSpaceRuns(s)| ==> SplitSpaceRuns(s)[k] != []
    decreases |s|
  {
    if s != [] {
      var r := SplitSpaceRuns(s);
      if IsSpace(s[0]) {
        var t := TrimStart(s);
        TrimStartKeepsLast(s);
        InnerPiecesNonEmpty(t);
        var inner := SplitSpaceRuns(t);
        assert r == [""] + inner;
        assert inner[0] != [];
        forall k | 0 < k < |r| ensures r[k] != [] {
          assert r[k] == inner[k - 1];
        }
      } else {
        var t := s[1..];
        assert t == [] || t[|t| - 1] == s[|s| - 1];
        InnerPiecesNonEmpty(t);
        var rest := SplitSpaceRuns(t);
        assert r == [[s[0]] + rest[0]] + rest[1..];
        forall k | 0 < k < |r| ensures r[k] != [] {
          assert r[k] == rest[k];
        }
      }
    }
  }

  /** The words of a trimmed, non-empty text are all non-empty: each piece
      is a real word. */
  lemma TrimmedPiecesAreWords(s: string)
    requires IsTrimmed(s) && s != []
    ensures forall k :: 0 <= k < |SplitSpaceRuns(s)| ==> SplitSpaceRuns(s)[k] != [] && NoSpace(SplitSpaceRuns(s)[k])
  {
    InnerPiecesNonEmpty(s);
    PiecesWithoutSpace(s);
  }

  /** Whether a white-space run ends at the head of `s`. */
  predicate RunEndsAtHead(s: string)
  {
    s != [] && IsSpace(s[0]) && (|s| == 1 || !IsSpace(s[1]))
  }

  /** The number of maximal white-space runs, counted at their ends. */
  function SpaceRuns(s: string): nat
    decreases |s|
  {
    if s == [] then 0
    else (if RunEndsAtHead(s) then 1 else 0) + SpaceRuns(s[1..])
  }

  /** A text that opens with white space has the opening run and the runs
      of what follows it. */
  lemma {:induction false} RunsOfLeadingSpace(s: string)
    requires s != [] && IsSpace(s[0])
    ensures SpaceRuns(s) == 1 + SpaceRuns(TrimStart(s))
    decreases |s|
  {
    if !RunEndsAtHead(s) {
      RunsOfLeadingSpace(s[1..]);
    }
  }

  /** Splitting gives one piece more than there are white-space runs. */
  lemma {:induction false} SplitLength(s: string)
    ensures |SplitSpaceRuns(s)| == SpaceRuns(s) + 1
    decreases |s|
  {
    if s != [] {
      if IsSpace(s[0]) {
        RunsOfLeadingSpace(s);
        SplitLength(TrimStart(s));
      } else {
        SplitLength(s[1..]);
      }
    }
  }

  lemma {:induction false} NoSpaceNoRuns(w: string)
    requires NoSpace(w)
    ensures SpaceRuns(w) == 0
  {
    if w != [] {
      NoSpaceNoRuns(w[1..]);
    }
  }

  /** A space and a word after a text that ends in a word add one run. */
  lemma {:induction false} RunsAppendWord(a: string, w: string)
    requires a != [] && !IsSpace(a[|a| - 1]) && NoSpace(w)
    ensures SpaceRuns(a + " " + w) == SpaceRuns(a) + 1
    decreases |a|
  {
    var s := a + " " + w;
    assert s[1..] == a[1..] + " " + w;
    if |a| == 1 {
      NoSpaceNoRuns(w);
      assert s[1..] == " " + w;
      assert (" " + w)[1..] == w;
    } else {
      RunsAppendWord(a[1..], w);
      assert RunEndsAtHead(s) == RunEndsAtHead(a);
    }
  }

  /** The number of words `calculateReadingTime` counts. */
  function Words(content: string): (n: nat)
    ensures n >= 1
  {
    |SplitSpaceRuns(Trim(content))|
  }

  /** `Math.ceil(words / 200)`, at 200 words a minute. */
  function ReadingTime(content: string): (minutes: nat)
    ensures minutes >= 1
    ensures 200 * (minutes - 1) < Words(content) <= 200 * minutes
  {
    (Words(content) + 199) / 200
  }

  /** Empty or blank content still counts as one word: one minute. */
  lemma BlankReadsInAMinute(content: string)
    requires AllSpace(content)
    ensures Words(content) == 1 && ReadingTime(content) == 1
  {
    TrimEmptyIff(content);
  }

  /** Writing one more word adds one to the count and never shortens the
      reading time. */
  lemma OneMoreWord(a: string, w: string)
    requires IsTrimmed(a) && a != [] && NoSpace(w) && w != []
    ensures Words(a + " " + w) == Words(a) + 1
    ensures ReadingTime(a) <= ReadingTime(a + " " + w) <= ReadingTime(a) + 1
  {
    TrimOfTrimmed(a);
    var s := a + " " + w;
    assert s[0] == a[0] && s[|s| - 1] == w[|w| - 1];
    TrimOfTrimmed(s);
    SplitLength(a);
    SplitLength(s);
    RunsAppendWord(a, w);
  }

  /** `filter(p => p.id !== data.id)`. */
  function Others(posts: seq<Post>, id: string): (r: seq<Post>)
    ensures |r| <= |posts|
    ensures forall p :: p in r ==> p in posts && p.id != id
    ensures forall p :: p in posts && p.id != id ==> p in r
  {
    if posts == [] then []
    else (if posts[0].id != id then [posts[0]] else []) + Others(posts[1..], id)
  }

  /** A list without the post itself passes the filter unchanged. */
  lemma {:induction false} OthersWithoutSelf(posts: seq<Post>, id: string)
    requires forall i :: 0 <= i < |posts| ==> posts[i].id != id
    ensures Others(posts, id) == posts
  {
    if posts != [] {
      OthersWithoutSelf(posts[1..], id);
    }
  }

  /** The related posts shown: the first three of the category's posts
      other than the post itself. */
  function Related(posts: seq<Post>, id: string): (r: seq<Post>)
    ensures |r| <= 3
    ensures forall p :: p in r ==> p in posts && p.id != id
    ensures |r| <= |Others(posts, id)| && r == Others(posts, id)[..|r|]
    ensures |r| == 3 || r == Others(posts, id)
  {
    var others := Others(posts, id);
    if |others| <= 3 then others else others[..3]
  }

  /** `data.categories && data.categories.length > 0`. */
  predicate HasCategory(p: Post)
  {
    p.categories.Some? && |p.categories.value| > 0
  }

  class PostDetailPage {
    var post: Option<Post>
    var loading: bool
    var related: seq<Post>

    constructor ()
      ensures post.None? && loading && related == []
    {
      post := None;
      loading := true;
      related := [];
    }

    /** The reading time shown: it is set together with the post, so it is
        always the post's own estimate (0 before any post arrived). */
    function ReadingTimeShown(): nat
      reads this
    {
      if post.Some? then ReadingTime(post.value.content) else 0
    }

    /** The post answered: on success it is shown with its reading time and,
        when it has a category, the posts of its first category are asked
        for; a failure leaves the page without a post. */
    method PostAnswered(data: Option<Post>) returns (relatedRequest: Option<string>)
      modifies this
      ensures data.None? ==> post == old(post) && relatedRequest.None? && !loading
      ensures data.Some? ==> post == data
      ensures data.Some? && HasCategory(data.value) ==>
                relatedRequest == Some(data.value.categories.value[0].slug) && loading == old(loading)
      ensures data.Some? && !HasCategory(data.value) ==> relatedRequest.None? && !loading
      ensures related == old(related)
    {
      relatedRequest := None;
      if data.None? {
        loading := false;
        return;
      }
      post := data;
      if HasCategory(data.value) {
        relatedRequest := Some(data.value.categories.value[0].slug);
      } else {
        loading := false;
      }
    }

    /** The category's posts answered: the related list is filled on
        success; loading ends either way. */
    method RelatedAnswered(posts: Option<seq<Post>>)
      requires post.Some?
      modifies this
      ensures post == old(post) && !loading
      ensures posts.Some? ==> related == Related(posts.value, post.value.id)
      ensures posts.None? ==> related == old(related)
    {
      if posts.Some? {
        related := Related(posts.value, post.value.id);
      }
      loading := false;
    }
  }
}
