/**
 The post record and the page window served by `GET /api/posts`.

 The feed is stored newest first, so page 1 holds the ten newest posts and a
 higher page number reaches further into the past ("older").
 */
module Feed {

  /** A journal entry: its sanitised text and two renderings of its creation instant. */
  datatype Post = Post(text: string, timestamp: string, isoTimestamp: string)

  /** What one page of the feed answers: the posts shown and the two boundary flags. */
  datatype PageWindow = PageWindow(posts: seq<Post>, page: int, hasOlder: bool, hasNewer: bool)

  const PostsPerPage: nat := 10

  function Min(a: int, b: int): int {
    if a <= b then a else b
  }

  function Max(a: int, b: int): int {
    if a <= b then b else a
  }

  /** `Math.ceil(length / PostsPerPage)`: the fewest pages that hold every post. */
  function TotalPages(length: nat): (n: nat)
    ensures n * PostsPerPage >= length
    ensures n == 0 || (n - 1) * PostsPerPage < length
    ensures n == 0 <==> length == 0
  {
    if length % PostsPerPage == 0 then length / PostsPerPage else length / PostsPerPage + 1
  }

  /**
   `Array.prototype.slice(start, end)`: negative bounds count from the end,
   and both bounds are clamped into the sequence.
   */
  function Slice<T>(s: seq<T>, start: int, end: int): (r: seq<T>)
    ensures 0 <= start <= end ==> r == s[Min(start, |s|)..Min(end, |s|)]
  {
    var from := if start < 0 then Max(|s| + start, 0) else Min(start, |s|);
    var to := if end < 0 then Max(|s| + end, 0) else Min(end, |s|);
    if from < to then s[from..to] else []
  }

  /** The three clamping statements applied, in order, to the requested page. */
  function ClampPage(requested: int, totalPages: nat): (page: int)
    ensures 1 <= page <= Max(1, totalPages)
    ensures 1 <= requested <= totalPages ==> page == requested
    ensures requested < 1 ==> page == 1
    ensures requested > totalPages ==> page == Max(1, totalPages)
  {
    var page := if requested < 1 then 1 else requested;
    var page := if page > totalPages && totalPages > 0 then totalPages else page;
    if totalPages == 0 then 1 else page
  }

  /** One page of the feed, as the posts handler computes it. */
  function Paginate(allPosts: seq<Post>, requested: int): (w: PageWindow)
    ensures 1 <= w.page <= Max(1, TotalPages(|allPosts|))
    ensures 1 <= requested <= TotalPages(|allPosts|) ==> w.page == requested
    ensures requested < 1 ==> w.page == 1
    ensures requested > TotalPages(|allPosts|) ==> w.page == Max(1, TotalPages(|allPosts|))
    ensures (w.page - 1) * PostsPerPage <= |allPosts|
    ensures w.posts == allPosts[(w.page - 1) * PostsPerPage .. Min(w.page * PostsPerPage, |allPosts|)]
    ensures |w.posts| <= PostsPerPage
    ensures |allPosts| > 0 ==> |w.posts| > 0
    ensures w.hasOlder <==> w.page * PostsPerPage < |allPosts|
    ensures w.hasNewer <==> w.page > 1
    ensures |allPosts| == 0 ==> w == PageWindow([], 1, false, false)
  {
    var totalPages := TotalPages(|allPosts|);
    var page := ClampPage(requested, totalPages);
    var start := (page - 1) * PostsPerPage;
    var end := start + PostsPerPage;
    PageWindow(Slice(allPosts, start, end), page, end < |allPosts|, page > 1)
  }

  /** Asking again for the page the handler answered gives the same window. */
  lemma PaginateIdempotent(allPosts: seq<Post>, requested: int)
    ensures Paginate(allPosts, Paginate(allPosts, requested).page) == Paginate(allPosts, requested)
  {
  }

  /** There is an older page exactly when the window is not on the last page. */
  lemma HasOlderIffNotLastPage(allPosts: seq<Post>, requested: int)
    ensures Paginate(allPosts, requested).hasOlder <==> Paginate(allPosts, requested).page < TotalPages(|allPosts|)
  {
  }

  /** Post `i` of the feed is entry `i % 10` of page `i / 10 + 1`. */
  lemma PostOnItsPage(allPosts: seq<Post>, i: nat)
    requires i < |allPosts|
    ensures i % PostsPerPage < |Paginate(allPosts, i / PostsPerPage + 1).posts|
    ensures Paginate(allPosts, i / PostsPerPage + 1).posts[i % PostsPerPage] == allPosts[i]
  {
    var p := i / PostsPerPage + 1;
    assert p <= TotalPages(|allPosts|);
  }

  /** Pages 1 to `n`, one after the other. */
  function PagesUpTo(allPosts: seq<Post>, n: nat): seq<Post> {
    if n == 0 then [] else PagesUpTo(allPosts, n - 1) + Paginate(allPosts, n).posts
  }

  /** Page `n` of the feed is the stretch of posts from `10 * (n - 1)` to `10 * n`, cut at the end. */
  lemma PageIsSlice(allPosts: seq<Post>, n: nat)
    requires 1 <= n <= TotalPages(|allPosts|)
    ensures (n - 1) * PostsPerPage <= |allPosts|
    ensures Paginate(allPosts, n).posts == allPosts[(n - 1) * PostsPerPage .. Min(n * PostsPerPage, |allPosts|)]
  {
    assert Paginate(allPosts, n).page == n;
  }

  /** The first `n` pages, read in order, are the first `10 * n` posts. */
  lemma {:induction false} PagesCoverPrefix(allPosts: seq<Post>, n: nat)
    requires n <= TotalPages(|allPosts|)
    ensures PagesUpTo(allPosts, n) == allPosts[..Min(n * PostsPerPage, |allPosts|)]
  {
    if n > 0 {
      PagesCoverPrefix(allPosts, n - 1);
      PageIsSlice(allPosts, n);
      var a := Min((n - 1) * PostsPerPage, |allPosts|);
      var b := Min(n * PostsPerPage, |allPosts|);
      assert allPosts[..a] + allPosts[a..b] == allPosts[..b];
    }
  }

  /** Reading every page from the first to the last yields the whole feed, each post once. */
  lemma PagesPartitionFeed(allPosts: seq<Post>)
    ensures PagesUpTo(allPosts, TotalPages(|allPosts|)) == allPosts
  {
    PagesCoverPrefix(allPosts, TotalPages(|allPosts|));
    assert allPosts[..|allPosts|] == allPosts;
  }
}
