/** The request gate (`frontend/src/middleware.ts`): static and public paths
    pass untouched; any other request is let through only if one credential
    probe against the API succeeds, and is otherwise redirected to the login
    page. Before the probe the shared API client's default `Cookie` header is
    overwritten with the one cookie being used. */
module Middleware {
  import opened Common
  import AuthApi

  const PublicRoutes: seq<string> := ["/auth/login", "/auth/register"]
  const StaticRoutes: seq<string> := ["/_next", "/favicon.ico"]
  const LoginPage: string := "/auth/login"
  const AccessCookie: string := "access_token"
  const RefreshCookie: string := "refresh_token"

  datatype Verdict = Next | Redirect(location: string)

  /** Paths the gate lets through without looking at any cookie: a static
      prefix, or an exact public path. */
  predicate Bypassed(pathname: string) {
    (exists i :: 0 <= i < |StaticRoutes| && StartsWith(pathname, StaticRoutes[i])) ||
    pathname in PublicRoutes
  }

  /** The credential probe the gate makes, if any. */
  datatype Probe = AccessProbe(token: string) | RefreshProbe(token: string) | NoProbe

  /** The access cookie if it is non-empty, else the refresh cookie if that is. */
  function ProbeFor(cookies: map<string, string>): (p: Probe)
    ensures p.AccessProbe? <==> Filled(Get(cookies, AccessCookie))
    ensures p.AccessProbe? ==> p.token == cookies[AccessCookie]
    ensures p.RefreshProbe? <==> !Filled(Get(cookies, AccessCookie)) && Filled(Get(cookies, RefreshCookie))
    ensures p.RefreshProbe? ==> p.token == cookies[RefreshCookie]
  {
    var access := Get(cookies, AccessCookie);
    var refresh := Get(cookies, RefreshCookie);
    if Filled(access) then AccessProbe(access.value)
    else if Filled(refresh) then RefreshProbe(refresh.value)
    else NoProbe
  }

  /** The `Cookie` header a probe sends. */
  function CookieHeader(name: string, value: string): string {
    name + "=" + value + ";"
  }

  /** The gate's verdict. `getUser` and `refresh` are how those calls would
      settle; each is consulted only when its probe is the one made. */
  function Decide(pathname: string, cookies: map<string, string>,
                  getUser: AuthApi.Transport, refresh: AuthApi.Transport): Verdict
  {
    if Bypassed(pathname) then Next
    else match ProbeFor(cookies)
      case AccessProbe(_) =>
        if AuthApi.Settle(AuthApi.GetUserOp, getUser).Resolved? then Next else Redirect(LoginPage)
      case RefreshProbe(_) =>
        if AuthApi.Settle(AuthApi.RefreshTokenOp, refresh).Resolved? then Next else Redirect(LoginPage)
      case NoProbe => Redirect(LoginPage)
  }

  /** A gate that tries the refresh cookie after a failed access probe,
      instead of redirecting at once. */
  function FallbackDecide(pathname: string, cookies: map<string, string>,
                          getUser: AuthApi.Transport, refresh: AuthApi.Transport): Verdict
  {
    if Bypassed(pathname) then Next
    else if Filled(Get(cookies, AccessCookie)) && AuthApi.Settle(AuthApi.GetUserOp, getUser).Resolved? then Next
    else if Filled(Get(cookies, RefreshCookie)) && AuthApi.Settle(AuthApi.RefreshTokenOp, refresh).Resolved? then Next
    else Redirect(LoginPage)
  }

  /** The shared API client singleton; only its default `Cookie` header matters here. */
  class ApiClient {
    var cookieHeader: Option<string>

    constructor ()
      ensures cookieHeader == None
    {
      cookieHeader := None;
    }
  }

  /** `middleware`. */
  method Gate(client: ApiClient, pathname: string, cookies: map<string, string>,
              getUser: AuthApi.Transport, refresh: AuthApi.Transport) returns (v: Verdict)
    modifies client
    ensures v == Decide(pathname, cookies, getUser, refresh)
    ensures client.cookieHeader ==
      if Bypassed(pathname) then old(client.cookieHeader)
      else match ProbeFor(cookies)
        case AccessProbe(token) => Some(CookieHeader(AccessCookie, token))
        case RefreshProbe(token) => Some(CookieHeader(RefreshCookie, token))
        case NoProbe => old(client.cookieHeader)
  {
    var isStatic := false;
    var i := 0;
    while i < |StaticRoutes|
      invariant 0 <= i <= |StaticRoutes|
      invariant isStatic <==> exists j :: 0 <= j < i && StartsWith(pathname, StaticRoutes[j])
    {
      if StartsWith(pathname, StaticRoutes[i]) {
        isStatic := true;
      }
      i := i + 1;
    }
    if isStatic || pathname in PublicRoutes {
      return Next;
    }
    var accessToken := Get(cookies, AccessCookie);
    var refreshToken := Get(cookies, RefreshCookie);
    if Filled(accessToken) {
      client.cookieHeader := Some(CookieHeader(AccessCookie, accessToken.value));
      var settled := AuthApi.Settle(AuthApi.GetUserOp, getUser);
      if settled.Resolved? {
        return Next;
      }
      return Redirect(LoginPage);
    }
    if Filled(refreshToken) {
      client.cookieHeader := Some(CookieHeader(RefreshCookie, refreshToken.value));
      var settled := AuthApi.Settle(AuthApi.RefreshTokenOp, refresh);
      if settled.Resolved? {
        return Next;
      }
    }
    return Redirect(LoginPage);
  }

  /** Static and public paths are let through whatever the cookies and probes. */
  lemma BypassIgnoresCookies(pathname: string, c1: map<string, string>, c2: map<string, string>,
                             g1: AuthApi.Transport, g2: AuthApi.Transport,
                             r1: AuthApi.Transport, r2: AuthApi.Transport)
    requires StartsWith(pathname, "/_next") || StartsWith(pathname, "/favicon.ico") ||
             pathname == "/auth/login" || pathname == "/auth/register"
    ensures Decide(pathname, c1, g1, r1) == Next == Decide(pathname, c2, g2, r2)
  {
    if StartsWith(pathname, "/_next") {
      assert StartsWith(pathname, StaticRoutes[0]);
    } else if StartsWith(pathname, "/favicon.ico") {
      assert StartsWith(pathname, StaticRoutes[1]);
    }
  }

  /** Public paths match exactly: with a trailing slash the login page is
      not public, and without credentials it redirects to itself. */
  lemma PublicMatchIsExact(cookies: map<string, string>, g: AuthApi.Transport, r: AuthApi.Transport)
    requires !Filled(Get(cookies, AccessCookie)) && !Filled(Get(cookies, RefreshCookie))
    ensures Decide("/auth/login/", cookies, g, r) == Redirect(LoginPage)
  {
    var p := "/auth/login/";
    assert p[1] == 'a';
    assert !StartsWith(p, StaticRoutes[0]) by { assert StaticRoutes[0][1] == '_'; }
    assert !StartsWith(p, StaticRoutes[1]) by { assert StaticRoutes[1][1] == 'f'; }
    assert |p| != |PublicRoutes[0]| && |p| != |PublicRoutes[1]|;
  }

  /** The verdict for a path the gate does not bypass, probe by probe. */
  lemma ProbeOutcomes(pathname: string, cookies: map<string, string>,
                      getUser: AuthApi.Transport, refresh: AuthApi.Transport)
    requires !Bypassed(pathname)
    ensures var v := Decide(pathname, cookies, getUser, refresh);
      var access := Filled(Get(cookies, AccessCookie));
      var refreshed := Filled(Get(cookies, RefreshCookie));
      // a valid access cookie lets the request through
      (access && getUser.Delivered? ==> v == Next) &&
      // a failed access probe redirects at once, without trying the refresh cookie
      (access && !getUser.Delivered? ==> v == Redirect(LoginPage)) &&
      // the refresh cookie alone decides only when there is no access cookie
      (!access && refreshed ==>
         (v == Next <==> refresh.Delivered? && AuthApi.Prop(refresh.data, "success") == Some(JBool(true)))) &&
      (!access && !refreshed ==> v == Redirect(LoginPage)) &&
      (v.Redirect? ==> v.location == LoginPage)
  {
    if Filled(Get(cookies, AccessCookie)) {
      AuthApi.ErrorsPropagate(AuthApi.GetUserOp, getUser);
    }
  }

  /** With an access cookie the refresh probe's outcome never matters. */
  lemma AccessProbeIgnoresRefresh(pathname: string, cookies: map<string, string>,
                                  getUser: AuthApi.Transport, r1: AuthApi.Transport, r2: AuthApi.Transport)
    requires Filled(Get(cookies, AccessCookie))
    ensures Decide(pathname, cookies, getUser, r1) == Decide(pathname, cookies, getUser, r2)
  {
  }

  /** The gate as written and the gate with the fallback differ in exactly one
      case: a failed access probe with a refresh cookie that would succeed. */
  lemma NoRefreshFallback(pathname: string, cookies: map<string, string>,
                          getUser: AuthApi.Transport, refresh: AuthApi.Transport)
    ensures Decide(pathname, cookies, getUser, refresh) != FallbackDecide(pathname, cookies, getUser, refresh) <==>
      !Bypassed(pathname) &&
      Filled(Get(cookies, AccessCookie)) && !getUser.Delivered? &&
      Filled(Get(cookies, RefreshCookie)) && AuthApi.Settle(AuthApi.RefreshTokenOp, refresh).Resolved?
    ensures Decide(pathname, cookies, getUser, refresh) == Next ==>
      FallbackDecide(pathname, cookies, getUser, refresh) == Next
  {
    if Filled(Get(cookies, AccessCookie)) {
      AuthApi.ErrorsPropagate(AuthApi.GetUserOp, getUser);
    }
  }
}
