/** `CookieJWTAuthentication` (`backend/users/authentication.py`): the request
    authenticator every view without its own `authentication_classes` runs. It
    reads the access token from the `access_token` cookie instead of the
    `Authorization` header. */
module Authentication {
  import opened Common
  import Framework
  import opened Models
  import Backends

  const AccessCookie: string := "access_token"
  const RefreshCookie: string := "refresh_token"
  const InvalidTokenPrefix: string := "Invalid token: "
  const UserNotFound: string := "user_not_found"
  const UserInactive: string := "user_inactive"

  datatype Outcome =
    | Anonymous                              // `None`: no credentials offered
    | Rejected(message: string, code: Option<string>)  // `AuthenticationFailed` raised, with the JWT library's code when it raised it
    | Authenticated(user: User, claims: Framework.Claims)

  /** `JWTAuthentication.get_user`: the row named by the token's `user_id`
      claim, which must exist and be active. Its refusals are the JWT
      library's own `AuthenticationFailed`, which carries an error code. */
  function TokenUser(users: seq<User>, claims: Framework.Claims): (r: Outcome)
    ensures r.Authenticated? ==> r.user in users && r.user.id == claims.userId && r.user.isActive && r.claims == claims
    ensures r.Rejected? <==> Backends.GetUser(users, claims.userId).None? || !Backends.GetUser(users, claims.userId).value.isActive
    ensures Backends.GetUser(users, claims.userId).None? ==> r == Rejected("User not found", Some(UserNotFound))
    ensures r.Rejected? && Backends.GetUser(users, claims.userId).Some? ==> r == Rejected("User is inactive", Some(UserInactive))
    ensures !r.Anonymous?
  {
    match Backends.GetUser(users, claims.userId)
    case None => Rejected("User not found", Some(UserNotFound))
    case Some(u) => if u.isActive then Authenticated(u, claims) else Rejected("User is inactive", Some(UserInactive))
  }

  /** `CookieJWTAuthentication.authenticate`. */
  function Authenticate(env: Framework.Env, users: seq<User>, cookies: map<string, string>): (r: Outcome)
    // no cookie, or an empty one: anonymous, not an error
    ensures r.Anonymous? <==> !Filled(Get(cookies, AccessCookie))
    // a token the JWT layer refuses: rejected, with the reason after a fixed prefix
    ensures Filled(Get(cookies, AccessCookie)) && env.validateAccess(cookies[AccessCookie]).Err? ==>
      r == Rejected(InvalidTokenPrefix + env.validateAccess(cookies[AccessCookie]).error, None)
    // a valid token: the user it names, with the validated claims
    ensures Filled(Get(cookies, AccessCookie)) && env.validateAccess(cookies[AccessCookie]).Ok? ==>
      r == TokenUser(users, env.validateAccess(cookies[AccessCookie]).value)
    ensures r.Authenticated? ==>
      env.validateAccess(cookies[AccessCookie]) == Ok(r.claims) && r.user.id == r.claims.userId
  {
    var token := Get(cookies, AccessCookie);
    if !Filled(token) then Anonymous
    else match env.validateAccess(token.value)
      case Err(reason) => Rejected(InvalidTokenPrefix + reason, None)
      case Ok(claims) => TokenUser(users, claims)
  }

  /** Only the access cookie is consulted: requests that agree on it are
      authenticated alike, whatever else they carry (the refresh cookie included). */
  lemma OnlyAccessCookieMatters(env: Framework.Env, users: seq<User>, c1: map<string, string>, c2: map<string, string>)
    requires Get(c1, AccessCookie) == Get(c2, AccessCookie)
    ensures Authenticate(env, users, c1) == Authenticate(env, users, c2)
  {
  }

  /** A token the JWT layer issued for a user still in the table and active
      authenticates exactly that user. */
  lemma IssuedAccessTokenAuthenticates(env: Framework.Env, users: seq<User>, cookies: map<string, string>, u: User)
    requires Framework.Coherent(env)
    requires Unique(users) && u in users && u.isActive
    requires Get(cookies, AccessCookie) == Some(env.accessFor(Framework.Claims(u.id)))
    ensures Authenticate(env, users, cookies) == Authenticated(u, Framework.Claims(u.id))
  {
    assert env.validateAccess(env.accessFor(Framework.Claims(u.id))) == Ok(Framework.Claims(u.id));
    var found := Backends.GetUser(users, u.id);
    assert found.Some?;
    KeyIdentifiesRow(users, found.value, u);
  }

  /** Keys are unique within a table. */
  lemma KeyIdentifiesRow(users: seq<User>, a: User, b: User)
    requires Unique(users) && a in users && b in users && a.id == b.id
    ensures a == b
  {
    var i :| 0 <= i < |users| && users[i] == a;
    var j :| 0 <= j < |users| && users[j] == b;
    assert i == j;
  }
}
