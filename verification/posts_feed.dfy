/** The posts feed page: its fetch guard with the loading flag, and the
    filter that decides which posts are shown. Times are integer
    milliseconds, and the current time is a parameter. */
module PostsFeed {
  import opened Wrappers
  import opened Users

  /** A post as the feed reads it; `date` is None when the stored date does
      not parse (its time is NaN, and every comparison with NaN is false). */
  datatype Post = Post(id: string, owner: string, date: Option<int>)

  datatype FeedState = FeedState(posts: seq<Post>, loading: bool)

  /** The state on mount: no posts, spinner on. */
  const Initial := FeedState([], true)

  datatype FetchOutcome = Fetched(posts: seq<Post>) | FetchFailed

  /** The state after `fetchUserPosts`, and whether it asked the server. */
  datatype FetchResult = FetchResult(state: FeedState, fetched: bool)

  /** `user?._id` is truthy. */
  predicate HasId(user: Option<User>) {
    user.Some? && user.value.id != ""
  }

  /** `fetchUserPosts`: without a user id it returns at once, before the
      `try`, so not even its `finally` runs; otherwise the spinner is shown,
      the posts are replaced on success and kept on failure, and the
      `finally` hides the spinner. */
  function FetchUserPosts(state: FeedState, user: Option<User>, outcome: FetchOutcome): (r: FetchResult)
    ensures r.fetched <==> HasId(user)
    ensures !r.fetched ==> r.state == state
    ensures r.fetched ==> !r.state.loading
    ensures r.fetched && outcome.Fetched? ==> r.state.posts == outcome.posts
    ensures outcome.FetchFailed? ==> r.state.posts == state.posts
  {
    if !HasId(user) then FetchResult(state, false)
    else
      var showing := state.(loading := true);
      var loaded := match outcome
                    case Fetched(posts) => showing.(posts := posts)
                    case FetchFailed => showing;
      FetchResult(loaded.(loading := false), true)
  }

  /** Without a user id the page never leaves its spinner. */
  lemma NoUserKeepsSpinner(user: Option<User>, outcome: FetchOutcome)
    requires !HasId(user)
    ensures FetchUserPosts(Initial, user, outcome).state.loading
  {
  }

  /** The `filteredPosts` predicate: not the current user's own post (with no
      user, `user?._id` is undefined and no owner equals it), and dated now
      or later. */
  predicate Visible(post: Post, userId: Option<string>, now: int) {
    && (userId.None? || post.owner != userId.value)
    && post.date.Some? && post.date.value >= now
  }

  /** `posts.filter(...)`, one post at a time. */
  function FilteredPosts(posts: seq<Post>, userId: Option<string>, now: int): (shown: seq<Post>)
    ensures forall p :: p in shown <==> p in posts && Visible(p, userId, now)
    ensures forall p :: multiset(shown)[p] == if Visible(p, userId, now) then multiset(posts)[p] else 0
    ensures IsSubsequence(shown, posts)
  {
    if |posts| == 0 then []
    else
      var rest := FilteredPosts(posts[1..], userId, now);
      SubsequenceTail(rest, posts);
      assert posts == [posts[0]] + posts[1..];
      assert multiset(posts) == multiset([posts[0]]) + multiset(posts[1..]);
      if Visible(posts[0], userId, now) then [posts[0]] + rest else rest
  }

  /** `a` can be obtained from `b` by deleting elements: same relative order,
      nothing added. */
  predicate IsSubsequence<T(==)>(a: seq<T>, b: seq<T>)
    decreases |b|
  {
    if |a| == 0 then true
    else if |b| == 0 then false
    else if a[0] == b[0] then IsSubsequence(a[1..], b[1..])
    else IsSubsequence(a, b[1..])
  }

  /** A subsequence of the tail is a subsequence of the whole, and keeps
      being one with the head put back in front. */
  lemma SubsequenceTail<T>(a: seq<T>, b: seq<T>)
    requires |b| > 0 && IsSubsequence(a, b[1..])
    ensures IsSubsequence(a, b)
    ensures IsSubsequence([b[0]] + a, b)
  {
    assert ([b[0]] + a)[1..] == a;
    SubsequenceOfTail(a, b);
  }

  /** A subsequence of the tail is a subsequence of the whole. */
  lemma {:induction false} SubsequenceOfTail<T>(a: seq<T>, b: seq<T>)
    requires |b| > 0 && IsSubsequence(a, b[1..])
    ensures IsSubsequence(a, b)
    decreases |b|, 0
  {
    if |a| > 0 && a[0] == b[0] {
      SubsequenceDropHead(a, b[1..]);
    }
  }

  /** Dropping the first element keeps a subsequence one. */
  lemma {:induction false} SubsequenceDropHead<T>(a: seq<T>, c: seq<T>)
    requires |a| > 0 && IsSubsequence(a, c)
    ensures IsSubsequence(a[1..], c)
    decreases |c|, 1
  {
    if a[0] == c[0] {
      SubsequenceOfTail(a[1..], c);
    } else {
      SubsequenceDropHead(a, c[1..]);
      SubsequenceOfTail(a[1..], c);
    }
  }

  /** The current user's own posts are never shown. */
  lemma OwnPostsHidden(posts: seq<Post>, userId: string, now: int)
    ensures forall p :: p in FilteredPosts(posts, Some(userId), now) ==> p.owner != userId
  {
  }

  /** A post of someone else dated exactly now is shown; one dated a
      millisecond earlier is not. */
  lemma BoundaryIsInclusive(posts: seq<Post>, userId: Option<string>, now: int, p: Post)
    requires p in posts && p.date == Some(now) && (userId.None? || p.owner != userId.value)
    ensures p in FilteredPosts(posts, userId, now)
    ensures p.(date := Some(now - 1)) !in FilteredPosts(posts, userId, now)
  {
  }

  /** Filtering what is already filtered changes nothing. */
  lemma {:induction false} FilterIdempotent(posts: seq<Post>, userId: Option<string>, now: int)
    ensures FilteredPosts(FilteredPosts(posts, userId, now), userId, now) == FilteredPosts(posts, userId, now)
    decreases |posts|
  {
    if |posts| > 0 {
      FilterIdempotent(posts[1..], userId, now);
      var rest := FilteredPosts(posts[1..], userId, now);
      if Visible(posts[0], userId, now) {
        assert ([posts[0]] + rest)[1..] == rest;
      }
    }
  }
}
