/**
 The browser side of the journal (`public/client.js`): how a post is
 displayed, what `renderApp` shows for a page of the feed, and how the page
 reacts to its events (pagination clicks, websocket messages, history
 navigation, form submission). The DOM, `fetch` and `history` are replaced
 by the effects a reaction requests, in the order it requests them.
 */
module Client {
  import opened Text
  import opened Sniff
  import opened Feed

  const ImageExtensions: seq<string> := ["jpeg", "jpg", "gif", "png", "webp", "avif", "bmp"]

  /** Images hosted by Twitter carry no extension; this path marks them. */
  const TwitterMedia: string := "pbs.twimg.com/media/"

  /**
   `createPostElement`'s image test: ignoring ASCII case, a `.` and one of
   seven extensions followed by `?` or the end of the text, or (with case)
   the Twitter media path anywhere.
   */
  ghost predicate IsImage(text: string) {
    || (exists i, k :: 0 <= k < |ImageExtensions| && ExtensionAt(Lower(text), i, ImageExtensions[k], true))
    || Contains(text, TwitterMedia)
  }

  /** The image test as the regular expression engine and `includes` carry it out. */
  function DetectImage(text: string): (b: bool)
    ensures b <==> IsImage(text)
  {
    FindsExtension(Lower(text), ImageExtensions, true) || Includes(text, TwitterMedia)
  }

  /** How `createPostElement` displays a post's text. */
  function PostContent(text: string): (c: Content)
    ensures c == Image(text) <==> IsImage(text)
    ensures c == Link(text) <==> !IsImage(text) && Contains(text, "http")
    ensures c == Plain(text) <==> !IsImage(text) && !Contains(text, "http")
  {
    Classify(DetectImage(text), text)
  }

  /** The pagination bar: absent, or present with a Previous and a Next slot, each shown or empty. */
  datatype Controls = NoPagination | Pagination(previous: bool, next: bool)

  /** What `renderApp` shows: the post form, one displayed item per post, and the pagination bar. */
  datatype View = View(form: bool, feed: seq<Content>, controls: Controls)

  /** `renderApp(data)` for a page window and the `isEdit` flag that came with it. */
  function RenderApp(w: PageWindow, isEdit: bool): (v: View)
    ensures v.form <==> isEdit
    ensures |v.feed| == |w.posts|
    ensures forall i :: 0 <= i < |w.posts| ==> v.feed[i] == PostContent(w.posts[i].text)
    ensures v.controls.Pagination? <==> w.hasOlder || w.hasNewer
    ensures v.controls.Pagination? ==> (v.controls.previous <==> w.hasNewer) && (v.controls.next <==> w.hasOlder)
  {
    var controls := if w.hasOlder || w.hasNewer then Pagination(w.hasNewer, w.hasOlder) else NoPagination;
    View(isEdit, seq(|w.posts|, i requires 0 <= i < |w.posts| => PostContent(w.posts[i].text)), controls)
  }

  /**
   For a window the server computed, the bar appears exactly when the feed
   holds more than one page; the first page offers no Previous button and the
   last page no Next button.
   */
  lemma ControlsOnServedPages(allPosts: seq<Post>, requested: int, isEdit: bool)
    ensures RenderApp(Paginate(allPosts, requested), isEdit).controls.Pagination? <==> |allPosts| > PostsPerPage
    ensures Paginate(allPosts, requested).page == 1 ==> !Paginate(allPosts, requested).hasNewer
    ensures Paginate(allPosts, requested).page == TotalPages(|allPosts|) ==> !Paginate(allPosts, requested).hasOlder
  {
    var w := Paginate(allPosts, requested);
    if |allPosts| > PostsPerPage {
      assert TotalPages(|allPosts|) >= 2;
      if w.page == 1 {
        assert w.hasOlder;
      } else {
        assert w.hasNewer;
      }
    }
  }

  /** The page the client believes it shows (`currentPage`). */
  datatype ClientState = ClientState(currentPage: int)

  /** Events the page reacts to; a click carries the data the buttons were rendered from. */
  datatype Event =
    | SocketMessage
    | PopState(pageFromUrl: int)
    | ClickPrevious(data: PageWindow)
    | ClickNext(data: PageWindow)
    | Submit(text: string)

  /** Requests the page makes: load a page of the feed, push a history entry, send a post. */
  datatype Effect = Fetch(page: int) | PushHistory(page: int) | SendPost(text: string)

  datatype Reaction = Reaction(state: ClientState, effects: seq<Effect>)

  /** `ws.onmessage`: a new post refreshes the view only on the first page. */
  function OnSocketMessage(s: ClientState): (r: Reaction)
    ensures r.state == s
    ensures r.effects != [] <==> s.currentPage == 1
    ensures r.effects != [] ==> r.effects == [Fetch(1)]
  {
    Reaction(s, if s.currentPage == 1 then [Fetch(s.currentPage)] else [])
  }

  /** The `popstate` listener: only a page different from the current one is recorded and loaded. */
  function OnPopState(s: ClientState, pageFromUrl: int): (r: Reaction)
    ensures pageFromUrl == s.currentPage ==> r == Reaction(s, [])
    ensures pageFromUrl != s.currentPage ==> r.state.currentPage == pageFromUrl && r.effects == [Fetch(pageFromUrl)]
  {
    if pageFromUrl != s.currentPage then Reaction(ClientState(pageFromUrl), [Fetch(pageFromUrl)])
    else Reaction(s, [])
  }

  /** The Previous button: the page before the one the data came with, loaded and pushed to history. */
  function OnPrevious(data: PageWindow): (r: Reaction)
    ensures r.state.currentPage == data.page - 1
    ensures r.effects == [Fetch(data.page - 1), PushHistory(data.page - 1)]
  {
    var page := data.page - 1;
    Reaction(ClientState(page), [Fetch(page), PushHistory(page)])
  }

  /** The Next button: the page after the one the data came with, loaded and pushed to history. */
  function OnNext(data: PageWindow): (r: Reaction)
    ensures r.state.currentPage == data.page + 1
    ensures r.effects == [Fetch(data.page + 1), PushHistory(data.page + 1)]
  {
    var page := data.page + 1;
    Reaction(ClientState(page), [Fetch(page), PushHistory(page)])
  }

  /** `submitPost`: empty text sends nothing; any other text is sent as it is. */
  function OnSubmit(s: ClientState, text: string): (r: Reaction)
    ensures r.state == s
    ensures r.effects == [] <==> text == ""
    ensures text != "" ==> r.effects == [SendPost(text)]
  {
    Reaction(s, if text == "" then [] else [SendPost(text)])
  }

  /**
   The event handlers of the page. Whatever the event, every page the page
   loads or pushes to history is the page it then believes it shows, and only
   navigation changes that page.
   */
  function React(s: ClientState, e: Event): (r: Reaction)
    ensures forall i :: 0 <= i < |r.effects| && r.effects[i].Fetch? ==> r.effects[i].page == r.state.currentPage
    ensures forall i :: 0 <= i < |r.effects| && r.effects[i].PushHistory? ==> r.effects[i].page == r.state.currentPage
    ensures r.state != s ==> e.PopState? || e.ClickPrevious? || e.ClickNext?
    ensures forall i :: 0 <= i < |r.effects| && r.effects[i].SendPost? ==> e.Submit? && r.effects[i].text == e.text
  {
    match e
    case SocketMessage => OnSocketMessage(s)
    case PopState(pageFromUrl) => OnPopState(s, pageFromUrl)
    case ClickPrevious(data) => OnPrevious(data)
    case ClickNext(data) => OnNext(data)
    case Submit(text) => OnSubmit(s, text)
  }

  /**
   `currentPage` comes from the URL and is never set from the page the server
   answered. Opened at `?page=0`, the client is shown page 1, yet a websocket
   message requests nothing, and a history navigation to page 1 loads it again.
   */
  lemma StaleCurrentPage(allPosts: seq<Post>)
    ensures Paginate(allPosts, 0).page == 1
    ensures OnSocketMessage(ClientState(0)).effects == []
    ensures OnPopState(ClientState(0), 1).effects == [Fetch(1)]
  {
  }

  /** A history navigation is idempotent: repeating it requests nothing more. */
  lemma PopStateSettles(s: ClientState, page: int)
    ensures React(React(s, PopState(page)).state, PopState(page)) == Reaction(React(s, PopState(page)).state, [])
  {
  }

  /**
   Next, offered when the served window has older posts, loads the following
   page unclamped, which holds the next ten posts of the feed and offers
   Previous; Previous from there loads the original window again.
   */
  lemma NextThenPrevious(allPosts: seq<Post>, requested: int, s: ClientState)
    requires Paginate(allPosts, requested).hasOlder
    ensures var w := Paginate(allPosts, requested);
            var next := Paginate(allPosts, React(s, ClickNext(w)).state.currentPage);
            && next.page == w.page + 1
            && next.hasNewer
            && next.posts == allPosts[w.page * PostsPerPage .. Min((w.page + 1) * PostsPerPage, |allPosts|)]
            && Paginate(allPosts, React(s, ClickPrevious(next)).state.currentPage) == w
  {
    var w := Paginate(allPosts, requested);
    HasOlderIffNotLastPage(allPosts, requested);
    var next := Paginate(allPosts, w.page + 1);
    assert next.page == w.page + 1;
    PaginateIdempotent(allPosts, requested);
  }

  /** Previous, offered on any page after the first, loads the page before it unclamped. */
  lemma PreviousLoadsNewerPage(allPosts: seq<Post>, requested: int, s: ClientState)
    requires Paginate(allPosts, requested).hasNewer
    ensures var w := Paginate(allPosts, requested);
            var prev := Paginate(allPosts, React(s, ClickPrevious(w)).state.currentPage);
            && prev.page == w.page - 1
            && prev.hasOlder
            && prev.posts == allPosts[(w.page - 2) * PostsPerPage .. (w.page - 1) * PostsPerPage]
  {
    var w := Paginate(allPosts, requested);
    var prev := Paginate(allPosts, w.page - 1);
    assert prev.page == w.page - 1;
  }
}
