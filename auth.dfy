/**
 * The session callbacks (src/lib/auth.config.ts): the gate on dashboard
 * pages, and the copying of the user's role into the token and from the
 * token into the session.
 */
module Auth {
  import opened Wrappers
  import opened Text

  /** The signed-in user as the callbacks see it; `role` may be missing. */
  datatype User = User(role: Option<string>)

  /** A signed-in user whose role is 'admin'; a missing role or any other role is not. */
  predicate IsAdmin(user: Option<User>): (r: bool)
    ensures r ==> user.Some?
    ensures user.Some? && user.value.role != Some("admin") ==> !r
    ensures user == Some(User(Some("admin"))) ==> r
  {
    user.Some? && user.value.role == Some("admin")
  }

  /** `authorized`: dashboard pages need a signed-in admin; every other page is open. */
  function Authorized(user: Option<User>, pathname: string): (r: bool)
    ensures !StartsWith(pathname, "/dashboard") ==> r
    ensures StartsWith(pathname, "/dashboard") ==> (r <==> IsAdmin(user))
  {
    var isLoggedIn := user.Some?;
    var isAdmin := user.Some? && user.value.role == Some("admin");
    var isDashboard := StartsWith(pathname, "/dashboard");
    if isDashboard then isLoggedIn && isAdmin else true
  }

  /** An admin may open every page; anyone else exactly the pages outside "/dashboard". */
  lemma AuthorizedFor(user: Option<User>, pathname: string)
    ensures IsAdmin(user) ==> Authorized(user, pathname)
    ensures !IsAdmin(user) ==> (Authorized(user, pathname) <==> !StartsWith(pathname, "/dashboard"))
  {
  }

  /** The gate is a plain prefix test: "/dashboard-x" is gated as well, and "/" is open. */
  lemma GateIsPrefixTest(user: Option<User>)
    ensures !IsAdmin(user) ==> !Authorized(user, "/dashboard") && !Authorized(user, "/dashboard-x")
                                && !Authorized(user, "/dashboard/products")
    ensures Authorized(user, "/") && Authorized(user, "/products/shirt")
  {
    assert StartsWith("/dashboard-x", "/dashboard") by { assert "/dashboard-x"[..10] == "/dashboard"; }
    assert StartsWith("/dashboard/products", "/dashboard") by { assert "/dashboard/products"[..10] == "/dashboard"; }
    assert !StartsWith("/products/shirt", "/dashboard") by { assert "/products/shirt"[1] != "/dashboard"[1]; }
  }

  /** The JWT payload; `role` may be missing. */
  class Token {
    var role: Option<string>

    constructor (role: Option<string>)
      ensures this.role == role
    {
      this.role := role;
    }
  }

  class SessionUser {
    var role: Option<string>

    constructor ()
      ensures role == None
    {
      role := None;
    }
  }

  class Session {
    const user: SessionUser

    constructor (user: SessionUser)
      ensures this.user == user
    {
      this.user := user;
    }
  }

  /** `jwt`: on sign-in copy the user's role into the token, then return the token. */
  method Jwt(token: Token, user: Option<User>) returns (r: Token)
    modifies token
    ensures r == token
    ensures user.Some? ==> token.role == user.value.role
    ensures user.None? ==> token.role == old(token.role)
  {
    if user.Some? {
      token.role := user.value.role;
    }
    r := token;
  }

  /** `session`: copy the token's role into the session user whenever there is a token. */
  method SessionCallback(session: Session, token: Option<Token>) returns (r: Session)
    modifies session.user
    ensures r == session
    ensures token.Some? ==> session.user.role == old(token.value.role)
    ensures token.None? ==> session.user.role == old(session.user.role)
  {
    if token.Some? {
      session.user.role := token.value.role;
    }
    r := session;
  }

  /**
   * Signing in runs `jwt` with the user and then `session` with the token:
   * the role that reaches the session is the user's, so the session passes
   * the dashboard gate exactly when the user does.
   */
  method SignIn(user: User, token: Token, session: Session) returns (role: Option<string>)
    modifies token, session.user
    ensures role == user.role == session.user.role
    ensures forall path :: Authorized(Some(User(role)), path) == Authorized(Some(user), path)
  {
    var t := Jwt(token, Some(user));
    var s := SessionCallback(session, Some(t));
    role := s.user.role;
  }
}
