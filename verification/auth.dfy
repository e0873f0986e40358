/**
 Roles, sessions and the classification of an API key against the two
 configured secrets (`PRIVATE_KEY` grants editing, `PUBLIC_KEY` viewing).

 A secret that is not configured is `None`, like an unset environment
 variable; a login request without an `apiKey` field carries `None`.
 */
module Auth {
  import opened Wrappers

  datatype Role = Edit | View

  /** The server-side session: the role stored at login and the cookie's `maxAge`. */
  datatype Session = Session(role: Option<Role>, maxAge: Option<int>)

  /** A fresh or destroyed session: no role and a cookie that ends with the browser session. */
  const Anonymous: Session := Session(None, None)

  /** Thirty days in milliseconds, the lifetime a "remember me" login gives the cookie. */
  const RememberMeMaxAge: int := 30 * 24 * 60 * 60 * 1000

  /** The configured secrets. */
  datatype Secrets = Secrets(privateKey: Option<string>, publicKey: Option<string>)

  /**
   The role check exactly as written: strict equality against the editor
   secret first, then the viewer secret. A missing key equals a missing secret.
   */
  function ClassifyAsWritten(secrets: Secrets, apiKey: Option<string>): (r: Option<Role>)
    ensures r == Some(Edit) <==> apiKey == secrets.privateKey
    ensures r == Some(View) <==> apiKey != secrets.privateKey && apiKey == secrets.publicKey
    ensures r == None <==> apiKey != secrets.privateKey && apiKey != secrets.publicKey
  {
    if apiKey == secrets.privateKey then Some(Edit)
    else if apiKey == secrets.publicKey then Some(View)
    else None
  }

  /** With `PRIVATE_KEY` unset, a login request that sends no key is granted editing. */
  lemma UnsetSecretAdmitsMissingKey(publicKey: Option<string>)
    ensures ClassifyAsWritten(Secrets(None, publicKey), None) == Some(Edit)
  {
  }

  /**
   The intended classification: a request without a key never obtains a role;
   a present key obtains editing when it equals the editor secret, else
   viewing when it equals the viewer secret, else nothing.
   */
  function Classify(secrets: Secrets, apiKey: Option<string>): (r: Option<Role>)
    ensures r.Some? ==> apiKey.Some?
    ensures r == Some(Edit) <==> apiKey.Some? && apiKey == secrets.privateKey
    ensures r == Some(View) <==> apiKey.Some? && apiKey != secrets.privateKey && apiKey == secrets.publicKey
    ensures r == None <==> apiKey.None? || (apiKey != secrets.privateKey && apiKey != secrets.publicKey)
  {
    if apiKey.None? then None else ClassifyAsWritten(secrets, apiKey)
  }

  /** The two classifications differ only on requests that carry no key. */
  lemma ClassifyAgreesOnPresentKeys(secrets: Secrets, apiKey: Option<string>)
    ensures apiKey.Some? ==> Classify(secrets, apiKey) == ClassifyAsWritten(secrets, apiKey)
    ensures secrets.privateKey.Some? && secrets.publicKey.Some? ==>
      Classify(secrets, apiKey) == ClassifyAsWritten(secrets, apiKey)
  {
  }

  /** When both secrets are the same string, that key logs in as editor. */
  lemma EditorSecretTakesPrecedence(key: string)
    ensures Classify(Secrets(Some(key), Some(key)), Some(key)) == Some(Edit)
  {
  }

  /**
   Which key check a login performs: the comparison `server.js` makes, or the
   corrected one that refuses a request without a key.
   */
  datatype KeyCheck = AsWritten | Corrected

  function RoleFor(check: KeyCheck, secrets: Secrets, apiKey: Option<string>): Option<Role> {
    match check
    case AsWritten => ClassifyAsWritten(secrets, apiKey)
    case Corrected => Classify(secrets, apiKey)
  }

  /** The session after a successful login as `role`. */
  function SignIn(s: Session, role: Role, rememberMe: bool): (r: Session)
    ensures r.role == Some(role)
    ensures rememberMe ==> r.maxAge == Some(RememberMeMaxAge)
    ensures !rememberMe ==> r.maxAge == s.maxAge
  {
    var s := s.(role := Some(role));
    if rememberMe then s.(maxAge := Some(RememberMeMaxAge)) else s
  }

  /** The `req.session && req.session.role` test: the session carries some role. */
  predicate LoggedIn(s: Session) {
    s.role.Some?
  }

  /** The `req.session.role === "edit"` test. */
  predicate CanEdit(s: Session) {
    s.role == Some(Edit)
  }
}
