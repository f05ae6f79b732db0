/** The authentication callbacks and the credentials check
    (src/server/auth/config.ts): the same-site redirect rule, how the user
    id travels from the signed-in user into the token and from the token
    into the session, and the decisions of `authorize`. The e-mail format
    check, the user lookup and the password verification are parameters. */
module AuthConfig {
  import opened Wrappers
  import opened Strings

  const MinPasswordLength: nat := 6

  const TestUserId: string := "test-user-id"
  const TestUserEmail: string := "test@example.com"
  const TestUserPassword: string := "password"
  const TestUserName: string := "Test User"

  // ---------------------------------------------------------------------
  // Redirects

  /** `callbacks.redirect`: a relative URL or one under `baseUrl` is kept;
      any other URL is replaced by `baseUrl`. */
  function Redirect(url: string, baseUrl: string): (r: string)
    ensures StartsWith(r, "/") || StartsWith(r, baseUrl)
    ensures StartsWith(url, "/") || StartsWith(url, baseUrl) ==> r == url
    ensures r == url || r == baseUrl
  {
    if StartsWith(url, "/") || StartsWith(url, baseUrl) then url else baseUrl
  }

  // ---------------------------------------------------------------------
  // Token and session

  /** JavaScript truthiness of an optional string. */
  predicate Truthy(s: Option<string>) {
    s.Some? && s.value != ""
  }

  /** The user NextAuth hands to the `jwt` callback at sign-in. */
  datatype User = User(id: string, name: string, email: string)

  /** The JWT of a session: the user id added by `jwt`, and the subject. */
  class Token {
    var id: Option<string>
    var sub: Option<string>

    constructor (id: Option<string>, sub: Option<string>)
      ensures this.id == id && this.sub == sub
    {
      this.id := id;
      this.sub := sub;
    }
  }

  /** `session.user` as the `session` callback sees it. */
  class SessionUser {
    var id: Option<string>

    constructor (id: Option<string>)
      ensures this.id == id
    {
      this.id := id;
    }
  }

  /** `callbacks.jwt`: at sign-in the user's id goes into the token; on
      every other call the token is returned untouched. */
  method Jwt(token: Token, user: Option<User>) returns (result: Token)
    modifies token
    ensures result == token
    ensures user.Some? ==> token.id == Some(user.value.id)
    ensures user.None? ==> token.id == old(token.id)
    ensures token.sub == old(token.sub)
  {
    if user.Some? {
      token.id := Some(user.value.id);
    }
    return token;
  }

  /** The user id `session` puts into the session: the token's id, else its
      subject, else whatever the session had. */
  function SessionUserId(tokenId: Option<string>, tokenSub: Option<string>, current: Option<string>): (r: Option<string>)
    ensures Truthy(tokenId) ==> r == tokenId
    ensures !Truthy(tokenId) && Truthy(tokenSub) ==> r == tokenSub
    ensures !Truthy(tokenId) && !Truthy(tokenSub) ==> r == current
    ensures Truthy(tokenId) || Truthy(tokenSub) ==> Truthy(r)
  {
    if Truthy(tokenId) then tokenId else if Truthy(tokenSub) then tokenSub else current
  }

  /** `callbacks.session`: copies the user id from the token into the
      session user. */
  method Session(sessionUser: SessionUser, token: Token) returns (result: SessionUser)
    modifies sessionUser
    ensures result == sessionUser
    ensures sessionUser.id == SessionUserId(token.id, token.sub, old(sessionUser.id))
    ensures token.id == old(token.id) && token.sub == old(token.sub)
  {
    if Truthy(token.id) {
      sessionUser.id := token.id;
    } else if Truthy(token.sub) {
      sessionUser.id := token.sub;
    }
    return sessionUser;
  }

  /** After sign-in, the session carries the id of the user who signed in,
      whatever the token's subject and the session held before. */
  method SignInThenSession(user: User, sub: Option<string>, before: Option<string>)
    returns (sessionId: Option<string>)
    requires user.id != ""
    ensures sessionId == Some(user.id)
  {
    var token := new Token(None, sub);
    var _ := Jwt(token, Some(user));
    var sessionUser := new SessionUser(before);
    var _ := Session(sessionUser, token);
    sessionId := sessionUser.id;
  }

  // ---------------------------------------------------------------------
  // Credentials

  /** The submitted form; a field may be missing. */
  datatype Credentials = Credentials(email: Option<string>, password: Option<string>)

  /** A row of the `users` table. */
  datatype UserRow = UserRow(id: string, email: string, passwordHash: string, name: Option<string>)

  /** What `authorize` returns for a successful sign-in. */
  datatype AuthorizedUser = AuthorizedUser(id: string, name: string, email: string)

  /** The schema check: an e-mail (in the sense of `isEmail`) and a
      password of at least six characters. */
  predicate WellFormed(c: Credentials, isEmail: string -> bool) {
    c.email.Some? && isEmail(c.email.value) && c.password.Some? && |c.password.value| >= MinPasswordLength
  }

  /** The credentials of the built-in test user. */
  predicate IsTestUser(c: Credentials) {
    c.email == Some(TestUserEmail) && c.password == Some(TestUserPassword)
  }

  /** The name shown for a user: the stored one, else the part of the
      e-mail before the first `@`. */
  function DisplayName(name: Option<string>, email: string): (r: string)
    ensures name.Some? ==> r == name.value
    ensures name.None? ==> StartsWith(email, r) && '@' !in r && (|r| < |email| ==> email[|r|] == '@')
  {
    match name
    case Some(n) => n
    case None =>
      SplitFirst(email, '@');
      Split(email, '@')[0]
  }

  /** `authorize`. `lookup(email)` is the user row, or `None` when the query
      fails or finds nothing; `verify(password, hash)` is the password
      check, or `None` when it throws. */
  function Authorize(credentials: Credentials, isTestMode: bool, isEmail: string -> bool,
                     lookup: string -> Option<UserRow>,
                     verify: (string, string) -> Option<bool>): (r: Option<AuthorizedUser>)
    ensures !WellFormed(credentials, isEmail) ==> r.None?
    ensures WellFormed(credentials, isEmail) && isTestMode && IsTestUser(credentials) ==>
              r == Some(AuthorizedUser(TestUserId, TestUserName, TestUserEmail))
    ensures WellFormed(credentials, isEmail) && !(isTestMode && IsTestUser(credentials)) ==>
              (r.Some? <==>
                 lookup(credentials.email.value).Some?
                 && verify(credentials.password.value, lookup(credentials.email.value).value.passwordHash) == Some(true))
    ensures r.Some? && !(isTestMode && IsTestUser(credentials)) ==>
              var row := lookup(credentials.email.value).value;
              r.value == AuthorizedUser(row.id, DisplayName(row.name, credentials.email.value), row.email)
  {
    if !WellFormed(credentials, isEmail) then None
    else
      var email := credentials.email.value;
      var password := credentials.password.value;
      if isTestMode && email == TestUserEmail && password == TestUserPassword then
        Some(AuthorizedUser(TestUserId, TestUserName, TestUserEmail))
      else
        match lookup(email)
        case None => None
        case Some(user) =>
          match verify(password, user.passwordHash)
          case Some(true) => Some(AuthorizedUser(user.id, DisplayName(user.name, email), user.email))
          case _ => None
  }

  /** Outside test mode the test credentials get no special treatment, and
      in test mode they never reach the user table. */
  lemma TestUserOnlyInTestMode(credentials: Credentials, isEmail: string -> bool,
                               lookup1: string -> Option<UserRow>, lookup2: string -> Option<UserRow>,
                               verify: (string, string) -> Option<bool>)
    requires IsTestUser(credentials) && isEmail(TestUserEmail)
    ensures Authorize(credentials, true, isEmail, lookup1, verify) == Authorize(credentials, true, isEmail, lookup2, verify)
    ensures Authorize(credentials, true, isEmail, lookup1, verify).Some?
    ensures lookup1(TestUserEmail).None? ==> Authorize(credentials, false, isEmail, lookup1, verify).None?
  {
  }
}
