/** The authentication options: the credentials check (`authorize`) and the
    `jwt` and `session` callbacks, which copy the user id from the signed-in
    user into the token and from the token into the session. */
module Auth {
  import opened Wrappers

  /** The submitted form; a field the form did not send is `None`. */
  datatype Credentials = Credentials(username: Option<string>, password: Option<string>)

  datatype User = User(id: string, name: string, email: string)

  /** The one account the check knows. */
  function AdminUser(): User {
    User("1", "Admin", "admin@example.com")
  }

  /** `authorize`: `None` stands for both absent credentials and the `null`
      returned for a mismatch. */
  function Authorize(credentials: Option<Credentials>): (r: Option<User>)
    ensures r.Some? <==>
      credentials.Some? && credentials.value.username == Some("admin") && credentials.value.password == Some("password")
    ensures r.Some? ==> r.value == AdminUser()
  {
    match credentials
    case Some(Credentials(Some(username), Some(password))) =>
      if username == "admin" && password == "password" then Some(AdminUser()) else None
    case _ => None
  }

  /** The comparison is exact: a login that differs from "admin" in any way,
      even only in case, is refused. */
  lemma ExactUsername(username: string, password: string)
    requires username != "admin"
    ensures Authorize(Some(Credentials(Some(username), Some(password)))) == None
  {
  }

  /** The JWT the callbacks receive; `claims` stands for every field other
      than `id` (`name`, `email`, `sub`, the expiry). */
  class Token {
    var id: Option<string>
    var claims: map<string, string>

    constructor (claims: map<string, string>)
      ensures id == None && this.claims == claims
    {
      id := None;
      this.claims := claims;
    }
  }

  /** `session.user` as the callback sees it. */
  class SessionUser {
    var id: Option<string>
    var name: Option<string>
    var email: Option<string>

    constructor (name: Option<string>, email: Option<string>)
      ensures id == None && this.name == name && this.email == email
    {
      id := None;
      this.name := name;
      this.email := email;
    }
  }

  class Session {
    var user: SessionUser?
    var expires: string

    constructor (user: SessionUser?, expires: string)
      ensures this.user == user && this.expires == expires
    {
      this.user := user;
      this.expires := expires;
    }
  }

  /** The `jwt` callback: the token gets the user's id when a user signs in;
      otherwise the token comes back as it was. */
  method JwtCallback(token: Token, user: Option<User>) returns (r: Token)
    modifies token
    ensures r == token
    ensures user.Some? ==> token.id == Some(user.value.id)
    ensures user.None? ==> token.id == old(token.id)
    ensures token.claims == old(token.claims)
  {
    if user.Some? {
      token.id := Some(user.value.id);
    }
    r := token;
  }

  /** The `session` callback: `session.user.id` becomes the token's id when
      both the token and `session.user` exist; nothing else changes. */
  method SessionCallback(session: Session, token: Token?) returns (r: Session)
    modifies session.user
    ensures r == session
    ensures session.user == old(session.user)
    ensures token != null && session.user != null ==> session.user.id == token.id
    ensures token == null && session.user != null ==> session.user.id == old(session.user.id)
    ensures session.user != null ==>
      session.user.name == old(session.user.name) && session.user.email == old(session.user.email)
  {
    if token != null && session.user != null {
      session.user.id := token.id;
    }
    r := session;
  }

  /** A sign-in run end to end: the credentials are checked, the `jwt`
      callback stores the user in the token and the `session` callback
      exposes it; the session's user id is "1" exactly when the admin
      credentials were given. */
  method SignIn(credentials: Option<Credentials>, token: Token, session: Session)
    returns (user: Option<User>)
    requires session.user != null
    requires token.id == None
    modifies token, session.user
    ensures user == Authorize(credentials)
    ensures session.user.id == Some("1") <==> user.Some?
    ensures session.user.id == None <==> user.None?
  {
    user := Authorize(credentials);
    var t := JwtCallback(token, user);
    var s := SessionCallback(session, t);
  }
}
