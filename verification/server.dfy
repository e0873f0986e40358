/**
 The request handlers of `server.js`: login, logout and session status, the
 two access guards, the paginated feed and post creation with its broadcast.

 Each handler takes the request's session explicitly and returns the session
 the request leaves behind together with the response. The HTML sanitiser and
 the clock are parameters: `sanitize` stands for the `sanitize-html` call with
 no allowed tags or attributes, and the two timestamps are whatever the clock
 rendered when the post was created.
 */
module Server {
  import opened Wrappers
  import opened Feed
  import opened Auth
  import opened Store

  /** The JSON bodies the handlers send. */
  datatype Body =
    | LoginOk(role: Role)                               // { success: true, role }
    | Failure(message: string)                          // { success: false, message }
    | Done                                              // { success: true }
    | SessionStatus(loggedIn: bool, current: Option<Role>) // { loggedIn, role }
    | Posts(window: PageWindow, isEdit: bool)           // { posts, isEdit, hasOlder, hasNewer, page }
    | InternalError                                     // the framework's default error page

  datatype Response = Response(status: int, body: Body)

  /** The outcome of a guard: continue to the handler, or answer at once. */
  datatype Gate = Next | Deny(response: Response)

  /** `checkSession`: any role passes; otherwise 403 "Unauthorized". */
  function CheckSession(s: Session): (g: Gate)
    ensures g.Next? <==> s.role.Some?
    ensures g.Deny? ==> g.response == Response(403, Failure("Unauthorized"))
  {
    if LoggedIn(s) then Next else Deny(Response(403, Failure("Unauthorized")))
  }

  /** `checkEditAccess`: only the editor role passes; otherwise 403 "Forbidden". */
  function CheckEditAccess(s: Session): (g: Gate)
    ensures g.Next? <==> s.role == Some(Edit)
    ensures g.Deny? ==> g.response == Response(403, Failure("Forbidden"))
  {
    if CanEdit(s) then Next else Deny(Response(403, Failure("Forbidden")))
  }

  /**
   The guards nest: whoever may edit may read. A viewer passes only the read
   guard, and the two refusals are told apart by their message, not their status.
   */
  lemma GuardsNest(s: Session)
    ensures CheckEditAccess(s).Next? ==> CheckSession(s).Next?
    ensures s.role == Some(View) ==> CheckSession(s).Next? && CheckEditAccess(s).Deny?
    ensures s.role == None ==> CheckSession(s).Deny? && CheckEditAccess(s).Deny?
    ensures CheckSession(s).Deny? && CheckEditAccess(s).Deny? ==>
      CheckSession(s).response.status == CheckEditAccess(s).response.status &&
      CheckSession(s).response.body != CheckEditAccess(s).response.body
  {
  }

  /** The session a request leaves behind and the response it receives. */
  datatype Exchange = Exchange(session: Session, response: Response)

  /**
   `POST /api/login`, with the key check as a parameter: `AsWritten` is the
   handler of `server.js`, `Corrected` the one that refuses a missing key.
   */
  function Login(check: KeyCheck, secrets: Secrets, s: Session, apiKey: Option<string>, rememberMe: bool): (x: Exchange)
    ensures x.response.status == 200 <==> RoleFor(check, secrets, apiKey).Some?
    ensures x.response.status == 200 ==>
      x.session.role == RoleFor(check, secrets, apiKey) && x.response.body == LoginOk(x.session.role.value)
    ensures x.response.status == 200 && rememberMe ==> x.session.maxAge == Some(RememberMeMaxAge)
    ensures !rememberMe ==> x.session.maxAge == s.maxAge
    ensures x.response.status != 200 ==> x.session == s && x.response == Response(401, Failure("Invalid API Key"))
  {
    match RoleFor(check, secrets, apiKey)
    case Some(role) => Exchange(SignIn(s, role, rememberMe), Response(200, LoginOk(role)))
    case None => Exchange(s, Response(401, Failure("Invalid API Key")))
  }

  /**
   A login that sends a key obtains editing exactly with the editor secret and
   viewing exactly with a different viewer secret, whichever check is used. A
   login without a key is refused by the corrected check; the handler as
   written grants editing when the editor secret is unset, and viewing when
   only the viewer secret is unset.
   */
  lemma LoginRoles(check: KeyCheck, secrets: Secrets, s: Session, key: string, rememberMe: bool)
    ensures Login(check, secrets, s, Some(key), rememberMe).response == Response(200, LoginOk(Edit)) <==>
      secrets.privateKey == Some(key)
    ensures Login(check, secrets, s, Some(key), rememberMe).response == Response(200, LoginOk(View)) <==>
      secrets.privateKey != Some(key) && secrets.publicKey == Some(key)
    ensures Login(Corrected, secrets, s, None, rememberMe) == Exchange(s, Response(401, Failure("Invalid API Key")))
    ensures Login(AsWritten, secrets, s, None, rememberMe).response == Response(200, LoginOk(Edit)) <==>
      secrets.privateKey.None?
    ensures Login(AsWritten, secrets, s, None, rememberMe).response == Response(200, LoginOk(View)) <==>
      secrets.privateKey.Some? && secrets.publicKey.None?
    ensures secrets.privateKey.Some? && secrets.publicKey.Some? ==>
      Login(AsWritten, secrets, s, None, rememberMe) == Login(Corrected, secrets, s, None, rememberMe)
  {
  }

  /** With `PRIVATE_KEY` unset, the handler as written logs a request without a key in as editor. */
  lemma KeylessLoginGrantsEdit(publicKey: Option<string>, s: Session, rememberMe: bool)
    ensures Login(AsWritten, Secrets(None, publicKey), s, None, rememberMe).response == Response(200, LoginOk(Edit))
    ensures Login(AsWritten, Secrets(None, publicKey), s, None, rememberMe).session.role == Some(Edit)
    ensures Login(Corrected, Secrets(None, publicKey), s, None, rememberMe).response.status == 401
  {
    UnsetSecretAdmitsMissingKey(publicKey);
  }

  /**
   `POST /api/logout`. The session store may fail to destroy the session
   (`destroyOk` false): the request then answers 500 and the stored session,
   which the next request reloads, is still there.
   */
  function Logout(s: Session, destroyOk: bool): (x: Exchange)
    ensures destroyOk ==> !LoggedIn(x.session) && x.response == Response(200, Done)
    ensures destroyOk ==> CheckSession(x.session).Deny? && CheckEditAccess(x.session).Deny?
    ensures !destroyOk ==> x.session == s && x.response == Response(500, Failure("Could not log out."))
  {
    if destroyOk then Exchange(Anonymous, Response(200, Done))
    else Exchange(s, Response(500, Failure("Could not log out.")))
  }

  /** `GET /api/session`: reports the role without changing anything. */
  function SessionInfo(s: Session): (r: Response)
    ensures r.status == 200
    ensures r.body.SessionStatus?
    ensures r.body.loggedIn <==> CheckSession(s).Next?
    ensures r.body.current == s.role
  {
    Response(200, SessionStatus(LoggedIn(s), s.role))
  }

  /** `GET /api/posts?page=requested`, behind `checkSession`. */
  function GetPosts(s: Session, db: Db, requested: int): (r: Response)
    ensures !LoggedIn(s) ==> r == Response(403, Failure("Unauthorized"))
    ensures LoggedIn(s) ==> r.status == 200 && r.body.Posts?
    ensures LoggedIn(s) ==> r.body.window == Paginate(Get(db), requested)
    ensures LoggedIn(s) ==> (r.body.isEdit <==> CheckEditAccess(s).Next?)
  {
    match CheckSession(s)
    case Deny(response) => response
    case Next => Response(200, Posts(Paginate(Get(db), requested), CanEdit(s)))
  }

  /** The record `POST /api/posts` creates. */
  function NewPost(sanitize: string -> string, text: string, timestamp: string, isoTimestamp: string): (p: Post)
    ensures p.text == sanitize(text)
    ensures p.timestamp == timestamp && p.isoTimestamp == isoTimestamp
  {
    Post(sanitize(text), timestamp, isoTimestamp)
  }

  /**
   `POST /api/posts`, behind `checkEditAccess`. The text is not checked for
   emptiness. A failed write of `posts.json` throws after the in-memory feed
   changed: nothing is broadcast and the framework answers 500.
   */
  method CreatePost(s: Session, db: Db, clients: seq<Client>,
                    sanitize: string -> string, text: string, timestamp: string, isoTimestamp: string,
                    write: WriteResult)
    returns (db': Db, clients': seq<Client>, r: Response)
    ensures !CanEdit(s) ==> db' == db && clients' == clients && r == Response(403, Failure("Forbidden"))
    ensures CanEdit(s) ==> db' == Prepend(db, NewPost(sanitize, text, timestamp, isoTimestamp), write)
    ensures CanEdit(s) && write.Written? ==>
      Converged(db') && Broadcasted(clients, clients', NewPost(sanitize, text, timestamp, isoTimestamp)) &&
      r == Response(200, Done)
    ensures CanEdit(s) && write.WriteFailed? ==> clients' == clients && r == Response(500, InternalError)
  {
    match CheckEditAccess(s)
    case Deny(response) =>
      db', clients', r := db, clients, response;
    case Next =>
      var post := NewPost(sanitize, text, timestamp, isoTimestamp);
      db' := Prepend(db, post, write);
      if write.WriteFailed? {
        clients', r := clients, Response(500, InternalError);
        return;
      }
      clients' := Broadcast(clients, post);
      r := Response(200, Done);
  }

  /** The requests the server answers; the outcome of each I/O step is part of the request. */
  datatype Request =
    | LoginRequest(apiKey: Option<string>, rememberMe: bool)
    | LogoutRequest(destroyOk: bool)
    | SessionRequest
    | PostsRequest(page: int)
    | CreatePostRequest(text: string, timestamp: string, isoTimestamp: string, write: WriteResult)

  /** Everything the server holds between requests. */
  datatype State = State(db: Db, clients: seq<Client>)

  /**
   Dispatches one request. Across all requests: only a login can give a
   session a role, only a login or a logout can change it, and only an editor
   can change the feed or send anything to the clients.
   */
  method Handle(check: KeyCheck, secrets: Secrets, sanitize: string -> string, st: State, s: Session, req: Request)
    returns (st': State, s': Session, r: Response)
    ensures !req.LoginRequest? && !req.LogoutRequest? ==> s' == s
    ensures s'.role.Some? && s'.role != s.role ==> req.LoginRequest? && s'.role == RoleFor(check, secrets, req.apiKey)
    ensures req.LogoutRequest? ==> s'.role == None || s' == s
    ensures st' != st ==> req.CreatePostRequest? && CanEdit(s)
    ensures st'.db != st.db ==> |Get(st'.db)| == |Get(st.db)| + 1 && Get(st'.db)[1..] == Get(st.db)
  {
    match req
    case LoginRequest(apiKey, rememberMe) =>
      var x := Login(check, secrets, s, apiKey, rememberMe);
      st', s', r := st, x.session, x.response;
    case LogoutRequest(destroyOk) =>
      var x := Logout(s, destroyOk);
      st', s', r := st, x.session, x.response;
    case SessionRequest =>
      st', s', r := st, s, SessionInfo(s);
    case PostsRequest(page) =>
      st', s', r := st, s, GetPosts(s, st.db, page);
    case CreatePostRequest(text, timestamp, isoTimestamp, write) =>
      var db, clients;
      db, clients, r := CreatePost(s, st.db, st.clients, sanitize, text, timestamp, isoTimestamp, write);
      st', s' := State(db, clients), s;
  }
}
