# Journal: request logic, feed pagination and post rendering

This project models the core of a small personal journal in Dafny.

- An editor posts short entries: text, links or image URLs.
- Viewers read the feed a page at a time.
- Every open websocket client is told about a new post.

The model covers three parts:

- **`server.js` (modules `Feed`, `Auth`, `Store`, `Server`).** It covers:
  - the paginated feed of `GET /api/posts`;
  - login, logout and session status;
  - the two access guards;
  - the post store, with its in-memory copy and `posts.json`;
  - post creation and its websocket broadcast.
- **`public/client.js` (module `Client`).** It covers:
  - the classification of a post as image, link or plain text;
  - what `renderApp` shows for a page window;
  - the page reactions: Previous/Next clicks, websocket messages, history navigation and form submission. Each reaction is the state it leaves and the requests it makes, in order.
- **`app.js` (module `Render`).** It covers the server-side renderer: its own image rule, the item markup, the form, the archive bar, and the filling of the three template placeholders.

Modules `Text` and `Sniff` hold the string primitives both sides share:

- `indexOf`/`includes`;
- `String.prototype.replace` with a string pattern, including the `$` patterns of the replacement;
- decimal notation of integers;
- the search for an image extension that the regular expressions perform.

Environment inputs are parameters of the model:

- the configured secrets (`PRIVATE_KEY`, `PUBLIC_KEY`), each possibly unset;
- the HTML sanitiser, an uninterpreted `string -> string`;
- the two timestamps;
- the page template's contents;
- the outcome of each I/O step: the `posts.json` write (with the file it leaves behind when it fails) and the session destroy;
- the key check used by login: `AsWritten`, the comparison the code makes, or `Corrected`, the one that refuses a missing key (see Findings).

Where the code's behaviour may surprise, the model follows the code:

- Both guards refuse with status 403. They differ only in the message, `"Unauthorized"` or `"Forbidden"`.
- Empty post text is not rejected by the server.
- Logout sits behind no guard.
- A failed write of `posts.json` leaves the new post in memory, broadcasts nothing and answers 500.

## Model

| member | source | states |
|---|---|---|
| Feed.TotalPages | server.js:202 | the page count is the ceiling of length/10: enough pages for every post, no empty last page, zero exactly for an empty feed |
| Feed.ClampPage | server.js:203-208 | the page lands in [1, max(1, totalPages)]; in-range requests are kept, requests below 1 become 1, requests past the end become the last page (1 for an empty feed) |
| Feed.Slice | server.js:213 | for `0 <= start <= end`, the posts from `start` up to `end`, both bounds cut at the end of the feed |
| Feed.Paginate | server.js:199-227 | the window's page is clamped as above; its posts are `allPosts[(page-1)*10 .. min(page*10, L)]` in feed order, at most 10 and at least one when the feed is non-empty; hasOlder iff page*10 < L; hasNewer iff page > 1; an empty feed gives page 1, no posts, both flags false |
| Feed.PaginateIdempotent | server.js:203-213 | asking again for the page that was answered returns the same window |
| Feed.HasOlderIffNotLastPage | server.js:216 | there are older posts exactly when the window is not on the last page |
| Feed.PostOnItsPage | server.js:211-213 | post i of the feed is entry i mod 10 of page i/10 + 1 |
| Feed.PagesCoverPrefix | server.js:211-213 | pages 1..n read in order are exactly the first 10n posts |
| Feed.PagesPartitionFeed | server.js:199-227 | reading every page from first to last gives back the whole feed, each post once, in order |
| Auth.UnsetSecretAdmitsMissingKey | server.js:107-108 | as written, with `PRIVATE_KEY` unset a login body without `apiKey` is classified as editor |
| Auth.ClassifyAsWritten | server.js:107-111 | the role is edit iff the sent key (possibly absent) equals the editor secret (possibly unset), view iff it differs from that and equals the viewer secret, nothing otherwise |
| Auth.Classify | server.js:104-111 | a key obtains edit iff it equals the editor secret, view iff it differs from that and equals the viewer secret, nothing otherwise; a request without a key obtains nothing |
| Auth.ClassifyAgreesOnPresentKeys | server.js:107-111 | the corrected classification agrees with the code whenever a key is sent or both secrets are configured |
| Auth.EditorSecretTakesPrecedence | server.js:107-110 | when both secrets are the same string, that key logs in as editor |
| Auth.SignIn | server.js:115-119 | after a login the session carries the role; remember-me sets maxAge to 30 days in milliseconds, otherwise maxAge is kept |
| Server.CheckSession | server.js:154-160 | passes iff the session has a role, otherwise answers 403 "Unauthorized" |
| Server.CheckEditAccess | server.js:163-169 | passes iff the role is edit, otherwise answers 403 "Forbidden" |
| Server.GuardsNest | server.js:154-169 | whoever passes the edit guard passes the session guard; a viewer passes only the session guard; both refusals share status 403 and differ in message |
| Server.Login | server.js:102-126 | for either key check: 200 with the role iff the key classifies under that check; the session then carries that role, and maxAge is 30 days with remember-me and unchanged without; otherwise 401 "Invalid API Key" with the session untouched |
| Server.LoginRoles | server.js:104-124 | with a key sent, a login yields edit exactly with the editor secret and view exactly with a different viewer secret, under either check; without a key the code's check answers 200 edit iff `PRIVATE_KEY` is unset and 200 view iff only `PUBLIC_KEY` is unset, and agrees with the corrected check (401, session unchanged) when both are set |
| Server.KeylessLoginGrantsEdit | server.js:107-108 | with `PRIVATE_KEY` unset, a login body without `apiKey` answers 200 and the session gains the editor role; the corrected check answers 401 |
| Server.Logout | server.js:129-141 | a successful destroy leaves a session that both guards refuse and answers 200; a failed destroy keeps the session and answers 500 "Could not log out." |
| Server.SessionInfo | server.js:144-151 | always 200; loggedIn iff the session guard would pass; the reported role is the session's |
| Server.GetPosts | server.js:199-227 | without a role, 403 "Unauthorized"; with one, 200 carrying the paginated window of the store and isEdit iff the edit guard would pass |
| Server.NewPost | server.js:239-252 | the new post's text is the sanitiser's output for the request text, with no emptiness check; its two timestamps are the given renderings of the creation instant |
| Server.CreatePost | server.js:236-267 | a non-editor gets 403 "Forbidden" with store and clients unchanged; an editor's post is prepended; after a successful write the copies converge, every open client gets the post once and the answer is 200; a failed write broadcasts nothing and answers 500 |
| Server.Handle | server.js:102-267 | for either key check, across all requests only a login gives a session a new role (the one that check classifies), only a login or logout changes the session, and only an editor's post changes the store or clients, by adding one post at the head |
| Store.Load | server.js:185-187 | an existing `posts.json` is loaded as the feed with both copies equal; a missing one gives an empty feed; an unreadable one, and only that, makes startup fail |
| Store.Prepend | server.js:174-182 | the new post becomes the head of the in-memory feed (`posts.unshift` at server.js:254), the old posts follow unchanged; a successful write makes the file equal to memory; after a failed one the file is whatever the failed write left behind, while memory still holds the new post |
| Store.SaveConverges | server.js:178-187 | after a successful save the two copies agree whatever state they were in before, and loading the file again gives back the same feed |
| Store.TruncatedWriteBreaksRestart | server.js:178-187 | a write that fails after truncating `posts.json` keeps the new post in memory, but loading the file again fails |
| Store.NewPostLeadsFirstPage | server.js:254-256 | after a post is added, page 1 starts with it and continues with the first nine posts of the old page 1 |
| Store.Broadcast | server.js:259-264 | each open client's outbox gains the post at its end; every other client is unchanged; no client is added, removed or reordered |
| Store.DeliveredExactlyOnce | server.js:260-264 | an open client receives the post exactly once more, a client in any other state receives nothing |
| Sniff.FindsExtension | public/client.js:267 | the scan answers true exactly when some `.ext` of the list occurs, followed by `?` or the end when anchored |
| Sniff.Classify | public/client.js:271-275 | image wins; otherwise a text containing `http` is a link; otherwise plain; the text is carried unchanged |
| Client.DetectImage | public/client.js:266-268 | true iff, ignoring ASCII case, `.` plus one of jpeg/jpg/gif/png/webp/avif/bmp is followed by `?` or the end, or the text contains `pbs.twimg.com/media/` |
| Client.PostContent | public/client.js:271-275 | image iff the image rule holds; link iff not an image and the text contains `http`; plain otherwise |
| Client.RenderApp | public/client.js:106-152 | the form is shown iff isEdit; one displayed item per post, in order; the bar appears iff hasOlder or hasNewer, Previous iff hasNewer and Next iff hasOlder |
| Client.ControlsOnServedPages | public/client.js:128-151 | for a window the server computed, the bar appears iff the feed has more than ten posts; the first page shows no Previous and the last no Next |
| Client.OnPrevious | public/client.js:180-188 | Previous makes the current page data.page - 1, loads it and pushes it to history, in that order |
| Client.OnNext | public/client.js:191-199 | Next makes the current page data.page + 1, loads it and pushes it to history, in that order |
| Client.OnSubmit | public/client.js:204-215 | empty text sends nothing; any other text is sent unchanged; the current page stays |
| Client.OnSocketMessage | public/client.js:293-299 | a websocket message refetches page 1 iff `currentPage` is 1, and otherwise requests nothing; the state is unchanged |
| Client.OnPopState | public/client.js:342-351 | a history navigation to the page `currentPage` already holds does nothing; to another page it records that page in `currentPage` and loads it |
| Client.React | public/client.js:179-351 | whatever the event, every page loaded or pushed is the page the client then believes it shows; only navigation changes that page; only a submission sends a post, with its text |
| Client.StaleCurrentPage | public/client.js:12 | opened at `?page=0`, the server answers page 1 (server.js:206), yet a websocket message requests nothing and a navigation to page 1 loads it again, since `currentPage` stays 0 |
| Client.PopStateSettles | public/client.js:347-350 | repeating a history navigation requests nothing more |
| Client.NextThenPrevious | public/client.js:191-199 | Next on a window with older posts loads the following ten posts and offers Previous; Previous from there gives back the original window |
| Client.PreviousLoadsNewerPage | public/client.js:180-188 | Previous on a page after the first loads the preceding page, which has older posts |
| Render.DetectImage | app.js:7 | true iff, ignoring ASCII case, `.` plus one of jpeg/jpg/gif/png/webp occurs anywhere |
| Render.PostContent | app.js:7-12 | image iff the app.js image rule holds; link iff not an image and containing `http`; plain otherwise |
| Render.ImageRulesDiffer | app.js:7 | the two image rules differ: `a.avif` is an image only in the browser, `a.pngs` only on the server |
| Render.AnchoredSharedExtensionIsImageForBoth | app.js:7 | one of the five shared extensions at the end (or before `?`) is an image for both rules |
| Render.ItemsHtml | app.js:5-22 | the posts' markup, one item per post joined without separator; empty exactly for no posts |
| Render.ItemsHtmlAppend | app.js:5-22 | rendering keeps posts in order, one item each: it distributes over concatenation of post sequences |
| Render.Form | app.js:28-35 | the form fragment is non-empty iff isEdit |
| Render.ArchiveParts | app.js:37-48 | no parts iff neither flag; an Older link is present iff hasOlder and targets page+1 with the key; a Newer link iff hasNewer targeting page-1; Older before the spacer before Newer; nothing twice: one part per set flag plus the spacer |
| Render.Archive | app.js:37-48 | the archive markup is empty iff there is neither an older nor a newer page |
| Render.Render | app.js:4-54 | the renderer with the three pieces inserted literally (the corrected one); a template without `{` comes back unchanged; its filling is stated by RenderFillsTemplate |
| Render.RenderAsWritten | app.js:4-54 | the renderer as written, inserting with `String.prototype.replace`; a template without `{` comes back unchanged; equals Render when items and archive hold no `$` (RenderAgreesWithoutDollar); a `$$` post loses a character (DollarPostIsRewritten) |
| Render.FillTemplateInOrder | app.js:50-53 | with the three placeholders in order and no other `{` before the last, each inserted piece lands where its placeholder stood |
| Render.RenderFillsTemplate | app.js:50-53 | for such a template and posts without `{`, the page is the template with the items, the form and the archive bar in place of the placeholders |
| Render.FillTemplateAgreesWithoutDollar | app.js:50-53 | without `$` in the inserted texts, `String.prototype.replace` inserts them literally |
| Render.RenderAgreesWithoutDollar | app.js:50-53 | without `$` in the items and archive markup, the renderer as written and the corrected one produce the same page |
| Render.DollarsArePlain | app.js:7-12 | the text `$$` is displayed as plain text |
| Render.DollarPostIsRewritten | app.js:50-51 | a post `$$` rendered into `{{posts}}` comes out one character shorter as written than with literal insertion |
| Text.IndexOf | app.js:51 | finds the first occurrence of the pattern, and nothing iff there is none |
| Text.Includes | public/client.js:268 | true iff the pattern occurs |
| Text.ReplaceFirst | app.js:51 | without an occurrence the text is unchanged; otherwise the first occurrence is replaced by the replacement |
| Text.Substitution | app.js:51-53 | the text `replace` inserts for a string replacement; a replacement without `$` is inserted as it is |
| Text.SubstitutionDollarPair | app.js:51-53 | after a `$`-free prefix, `$$` becomes a single `$` |
| Text.SubstitutionMatched | app.js:51-53 | after a `$`-free prefix, `$&` becomes the matched text |
| Text.SubstitutionBefore | app.js:51-53 | after a `$`-free prefix, `` $` `` becomes the text before the match |
| Text.SubstitutionAfter | app.js:51-53 | after a `$`-free prefix, `$'` becomes the text after the match |
| Text.SubstitutionLoneDollar | app.js:51-53 | a `$` followed by anything other than `$`, `&`, `` ` `` or `'` stays as it is |
| Text.ReplaceFirstJs | app.js:51-53 | as above, but the inserted text is the replacement after `$$`, `$&`, `` $` `` and `$'` substitution |
| Text.ReplaceFirstJsAgreesWithoutDollar | app.js:51-53 | a replacement without `$` is inserted literally |
| Text.SubstitutionKeepsPlainPrefix | app.js:51 | a `$`-free prefix of the replacement is kept as it is |
| Text.NatToString | app.js:41 | the decimal notation of a page number is non-empty and all digits |
| Text.NatToStringRoundTrip | app.js:41 | reading the decimal notation back gives the number |

## Left out

- Parsing of the `page` query: the requested page is an integer. `parseInt` of a non-numeric value gives NaN, which is not modelled. NaN passes the first two clamps of `server.js:206-207`. On an empty feed the third resets it to 1. On a non-empty feed the answer has no posts, both flags false, and page `null` (NaN, serialised by `res.json`).
- The client's `currentPage` and `pageFromUrl` (`public/client.js:12`, `public/client.js:344`) are integers too. With a non-numeric `page` in the URL, `NaN !== currentPage` holds on every history navigation. Client.PopStateSettles and Client.OnSocketMessage hold for numeric pages only.
- Text.IntToString: renders integers in plain decimal. JavaScript switches to exponent notation from 10^21 in magnitude, which page numbers never reach.
- Render.Archive: takes `page` to be a number, as the server passes it. A caller passing the raw query string would get concatenation in `${page + 1}` (`"2" + 1` is `"21"`).
- Feed.Slice: the contract states non-negative bounds only. The body also computes negative bounds, counted from the end as `Array.prototype.slice` does; the posts handler never passes them.
- The HTML sanitiser is an uninterpreted parameter. The clock's two renderings of the creation instant are inputs.
- JSON serialisation of posts, responses and websocket messages is not modelled: the file and the outboxes hold posts.
- The contents of a `posts.json` that a failed write left half written are not modelled: such a file is `Unreadable`, since `JSON.parse` of a truncated array throws.
- Express, express-session and ws wiring is left out. That covers middleware order, cookies, the file-backed session store and `clearCookie`, and server startup.
- The upload endpoint, its 5 MB limit and the Multer error middleware are left out. They are disk I/O done by a foreign library.
- The service worker `public/sw.js` is left out. It is browser cache I/O.
- The DOM, `fetch`, history and scrolling are reduced to the effects a reaction requests. Left out are the login form, the paste-to-upload handler, the websocket reconnect timer, and the visibility and blur handlers.
- The markup `createPostElement` wraps around a post is not modelled. Client-side display is stated over the classified content.
- `currentPage` is not synchronised with the page the server answers: it keeps the URL's value, as the code does (Client.StaleCurrentPage). A `page` below 1 or past the last page leaves the two apart, and OnSocketMessage and OnPopState compare against `currentPage`, not the page shown.
- The template file read is left out: its contents are the `template` parameter.
- Login inputs other than the modelled ones are left out. `rememberMe` is a boolean, not any truthy value. `apiKey` is a string or absent, not another JSON value.
- Case-insensitive matching folds ASCII letters only. This equals the `/i` flag for these ASCII patterns.
- Render.RenderFillsTemplate: requires post texts and timestamps without `{`. A post text containing `{{form}}` or `{{archive}}` would itself receive the later replacement, and the template's own placeholder would then stay in the page.
- Server.Handle: states which requests may change the session and the store, not every response. The responses are stated by the individual handlers.
- Client.React: the visibility handler's refetch of the current page is not one of the modelled events.

## Findings

| source | as written | input that shows it | evidently intended | confidence | as-written member | corrected member |
|---|---|---|---|---|---|---|
| server.js:107-111 | the key is compared with `===` against `process.env.PRIVATE_KEY`, so an unset secret equals a missing `apiKey` | `PRIVATE_KEY` unset and a login body `{}`: `undefined === undefined` grants the editor role | a request without a key obtains no role | not executed | Server.KeylessLoginGrantsEdit | Auth.Classify |
| app.js:50-53 | the rendered items are the replacement string of `String.prototype.replace`, which interprets `$$`, `$&`, `` $` `` and `$'` | a post whose text is `$$` rendered into the template `{{posts}}` shows `$` | the posts are inserted literally | not executed | Render.DollarPostIsRewritten | Render.RenderFillsTemplate |
