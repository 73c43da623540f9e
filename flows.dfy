/** The two ends together: what the client makes of the replies the API
    sends, and the session round trips that cross from one to the other. */
module Flows {
  import opened Common
  import Settings
  import Framework
  import opened Models
  import Authentication
  import Backends
  import Serializers
  import opened Urls
  import Views
  import AuthApi
  import Middleware
  import AuthProvider

  /** How the client's transport receives a reply: a 2xx status delivers the
      body, any other status is an HTTP error that carries it. */
  function Received(reply: Views.Reply): (t: AuthApi.Transport)
    ensures t.Delivered? <==> 200 <= reply.status < 300
    ensures t.Delivered? ==> t.data == reply.body
    ensures t.HttpError? ==> t.status == reply.status && t.body == Some(reply.body)
  {
    if 200 <= reply.status < 300 then AuthApi.Delivered(reply.body)
    else AuthApi.HttpError(reply.status, Some(reply.body))
  }

  /** The request the client sends for `op`, as the API sees it. */
  function ServeCall(env: Framework.Env, debug: bool, v: View, req: Views.Request,
                     users: seq<User>, nextId: nat): (reply: Views.Reply)
    requires Unique(users) && Below(users, nextId)
  {
    Views.Serve(env, debug, v, req, users, nextId).result.value
  }

  // ---------------------------------------------------------------------------
  // Routing: the client's paths and the API's route table

  /** The view each client operation is meant for. */
  function IntendedView(op: AuthApi.Operation): Option<View> {
    match op
    case RegisterOp => Some(RegistrationView)
    case LoginOp => Some(LoginView)
    case LogoutOp => Some(LogoutView)
    case DeleteAccountOp => Some(DeleteUserView)
    case GetUserOp => Some(CurrentUserView)
    case RefreshTokenOp => Some(RefreshTokenView)
    case UpdateProfileOp => Some(CurrentUserView)
    case ChangePasswordOp => None
  }

  function VerbOf(v: AuthApi.Verb): Views.HttpMethod {
    match v
    case Get => Views.GET
    case Post => Views.POST
    case Put => Views.PUT
    case Delete => Views.DELETE
  }

  /** Every client path but the password change is the mount point followed
      by one route pattern, and that route's view handles the client's method. */
  lemma ClientPathsRoute(op: AuthApi.Operation)
    requires op != AuthApi.ChangePasswordOp
    ensures var call := AuthApi.CallOf(op);
      exists i :: 0 <= i < |UrlPatterns| &&
        (call.path == Mount + UrlPatterns[i].path || call.path == "/" + Mount + UrlPatterns[i].path) &&
        Some(UrlPatterns[i].view) == IntendedView(op) &&
        Views.Handles(UrlPatterns[i].view, VerbOf(call.verb))
  {
    var call := AuthApi.CallOf(op);
    var i: nat := match op
      case RegisterOp => 0
      case LoginOp => 1
      case RefreshTokenOp => 2
      case LogoutOp => 3
      case GetUserOp => 4
      case UpdateProfileOp => 4
      case DeleteAccountOp => 5;
    EntryPaths();
    SessionPaths();
    ProfilePaths();
    assert Some(UrlPatterns[i].view) == IntendedView(op);
    assert Views.Handles(UrlPatterns[i].view, VerbOf(call.verb));
  }

  /** The paths of the two operations that open a session, each as the mount
      point and a route pattern (the registration path is relative). */
  lemma EntryPaths()
    ensures AuthApi.CallOf(AuthApi.RegisterOp).path == Mount + UrlPatterns[0].path
    ensures AuthApi.CallOf(AuthApi.LoginOp).path == "/" + Mount + UrlPatterns[1].path
  {
    assert UrlPatterns[0].path == "v1/register/" && UrlPatterns[1].path == "v1/login/";
  }

  /** The refresh and logout paths, each as the mount point and a route pattern. */
  lemma SessionPaths()
    ensures AuthApi.CallOf(AuthApi.RefreshTokenOp).path == "/" + Mount + UrlPatterns[2].path
    ensures AuthApi.CallOf(AuthApi.LogoutOp).path == "/" + Mount + UrlPatterns[3].path
  {
    assert UrlPatterns[2].path == "v1/refresh/";
    assert "/" + Mount + "v1/refresh/" == "/api/auth/v1/refresh/";
    assert UrlPatterns[3].path == "v1/logout/";
    assert "/" + Mount + "v1/logout/" == "/api/auth/v1/logout/";
  }

  /** The profile operations' paths, each as the mount point and a route pattern. */
  lemma ProfilePaths()
    ensures AuthApi.CallOf(AuthApi.GetUserOp).path == "/" + Mount + UrlPatterns[4].path
    ensures AuthApi.CallOf(AuthApi.UpdateProfileOp).path == "/" + Mount + UrlPatterns[4].path
    ensures AuthApi.CallOf(AuthApi.DeleteAccountOp).path == "/" + Mount + UrlPatterns[5].path
  {
    assert UrlPatterns[4].path == "v1/users/" && UrlPatterns[5].path == "v1/users/delete/";
  }

  /** The password-change path ends with none of the route patterns: no
      route of this table serves it. */
  lemma PasswordChangeHasNoRoute()
    ensures forall i :: 0 <= i < |UrlPatterns| ==> !EndsWith(AuthApi.CallOf(AuthApi.ChangePasswordOp).path, UrlPatterns[i].path)
  {
    var path := AuthApi.CallOf(AuthApi.ChangePasswordOp).path;
    assert path == "/api/users/set_password/";
    forall i | 0 <= i < |UrlPatterns| ensures !EndsWith(path, UrlPatterns[i].path) {
      var p := UrlPatterns[i].path;
      assert p[0] == 'v';
      if |p| <= |path| {
        assert path[|path| - |p|] != 'v' by {
          assert |p| == 9 || |p| == 10 || |p| == 11 || |p| == 12 || |p| == 16;
        }
        assert path[|path| - |p|..][0] != p[0];
      }
    }
  }

  // ---------------------------------------------------------------------------
  // Refresh: the API's reply and the client's shape check

  /** A refresh the API grants passes the client's shape check unchanged; one
      it refuses makes the client throw. */
  lemma RefreshReplyPassesClientCheck(env: Framework.Env, debug: bool, req: Views.Request,
                                      users: seq<User>, nextId: nat)
    requires Unique(users) && Below(users, nextId) && req.verb == Views.POST
    ensures var reply := ServeCall(env, debug, RefreshTokenView, req, users, nextId);
      (reply.status == 200 ==> AuthApi.Settle(AuthApi.RefreshTokenOp, Received(reply)) == AuthApi.Resolved(Some(reply.body))) &&
      (reply.status != 200 ==> AuthApi.Settle(AuthApi.RefreshTokenOp, Received(reply)).Threw?)
  {
    Views.RefreshReplies(env, debug, req, users, nextId);
    var reply := ServeCall(env, debug, RefreshTokenView, req, users, nextId);
    if reply.status == 200 {
      assert AuthApi.Prop(reply.body, "success") == Some(JBool(true));
    }
  }

  // ---------------------------------------------------------------------------
  // Registration errors: where the API puts them and where the client looks

  /** A taken email is reported under the registration form's `email` field. */
  lemma TakenEmailIsReported(env: Framework.Env, data: map<string, string>, users: seq<User>)
    requires "email" in data && data["email"] != "" && EmailTaken(users, data["email"])
    ensures Serializers.ValidateRegistration(env, data, users).Err?
    ensures "email" in Serializers.ValidateRegistration(env, data, users).error
  {
    var u :| u in users && u.email == data["email"];
    assert Serializers.Column(u, "email") == data["email"];
    var errs := Serializers.FieldErrors(env, Serializers.EmailRule, Get(data, "email"), users, false);
    assert Serializers.NotUnique in errs;
    assert Serializers.RegistrationRules[0] == Serializers.EmailRule;
  }

  /** As written, `register` never tells the user their data is taken: the API
      nests field errors under `errors`, and the client looks for them at the
      top level of the body. */
  lemma RegisterAsWrittenHidesTakenData(env: Framework.Env, debug: bool, req: Views.Request,
                                        users: seq<User>, nextId: nat)
    requires Unique(users) && Below(users, nextId) && req.verb == Views.POST
    ensures var reply := ServeCall(env, debug, RegistrationView, req, users, nextId);
      AuthApi.Register(Received(reply)) != AuthApi.Threw(AuthApi.Raised(JStr(AuthApi.DataInUse)))
  {
    var reply := ServeCall(env, debug, RegistrationView, req, users, nextId);
    var validated := Serializers.ValidateRegistration(env, req.data, users);
    if validated.Err? {
      RegisterCorrectedNamesFields(env, debug, req, users, nextId);
    } else {
      AcceptedRegistrationReply(env, debug, req, users, nextId);
    }
  }

  /** A valid registration form is answered with 201, or with the empty body
      of a server error when the manager refuses the row. */
  lemma AcceptedRegistrationReply(env: Framework.Env, debug: bool, req: Views.Request,
                                  users: seq<User>, nextId: nat)
    requires Unique(users) && Below(users, nextId) && req.verb == Views.POST
    requires Serializers.ValidateRegistration(env, req.data, users).Ok?
    ensures var reply := ServeCall(env, debug, RegistrationView, req, users, nextId);
      reply.status == 201 || (reply.status == 500 && reply.body == JNull)
  {
    Views.RegistrationServed(env, debug, req, users, nextId);
    Views.AcceptedRegistrationStep(env, req, users, nextId);
    var step := Views.RegistrationStep(env, req, users, nextId);
    var st := Views.Serve(env, debug, RegistrationView, req, users, nextId);
    if step.result.Ok? {
      assert st == step;
    } else {
      assert st.result == Ok(Views.ErrorReply(RegistrationView, Views.ServerError));
    }
  }

  /** What the client makes of the API's rejection of a registration form:
      `register` as written always says "try again"; corrected, it says
      "already in use" exactly when the email or the username field failed. */
  lemma RejectionMessages(body: Json, errs: map<string, seq<Serializers.FieldError>>)
    requires body.JObj? && body.fields.Keys == {"success", "errors"}
    requires body.fields["success"] == JBool(false) && body.fields["errors"] == Views.ErrorsJson(errs)
    ensures AuthApi.Register(AuthApi.HttpError(400, Some(body))) == AuthApi.Threw(AuthApi.Raised(JStr(AuthApi.TryAgain)))
    ensures AuthApi.RegisterCorrected(AuthApi.HttpError(400, Some(body))) ==
      AuthApi.Threw(AuthApi.Raised(JStr(if "email" in errs || "username" in errs then AuthApi.DataInUse else AuthApi.TryAgain)))
  {
    var errors := body.fields["errors"];
    assert !AuthApi.HasTruthy(body, "email") && !AuthApi.HasTruthy(body, "username");
    assert AuthApi.HasTruthy(errors, "email") <==> "email" in errs;
    assert AuthApi.HasTruthy(errors, "username") <==> "username" in errs;
  }

  /** The discrepancy on a concrete kind of input: registering with an email
      that is already taken gets "try again" from `register` as written, and
      the "already in use" message from the corrected one. */
  lemma TakenEmailGetsTryAgain(env: Framework.Env, debug: bool, req: Views.Request,
                               users: seq<User>, nextId: nat)
    requires Unique(users) && Below(users, nextId) && req.verb == Views.POST
    requires "email" in req.data && req.data["email"] != "" && EmailTaken(users, req.data["email"])
    ensures var reply := ServeCall(env, debug, RegistrationView, req, users, nextId);
      reply.status == 400 &&
      AuthApi.Register(Received(reply)) == AuthApi.Threw(AuthApi.Raised(JStr(AuthApi.TryAgain))) &&
      AuthApi.RegisterCorrected(Received(reply)) == AuthApi.Threw(AuthApi.Raised(JStr(AuthApi.DataInUse)))
  {
    TakenEmailIsReported(env, req.data, users);
    RegisterCorrectedNamesFields(env, debug, req, users, nextId);
  }

  /** With the correction, a rejected registration names taken data exactly
      when the API's errors name the email or the username field. */
  lemma RegisterCorrectedNamesFields(env: Framework.Env, debug: bool, req: Views.Request,
                                     users: seq<User>, nextId: nat)
    requires Unique(users) && Below(users, nextId) && req.verb == Views.POST
    requires Serializers.ValidateRegistration(env, req.data, users).Err?
    ensures var reply := ServeCall(env, debug, RegistrationView, req, users, nextId);
      var errs := Serializers.ValidateRegistration(env, req.data, users).error;
      reply.status == 400 &&
      AuthApi.Register(Received(reply)) == AuthApi.Threw(AuthApi.Raised(JStr(AuthApi.TryAgain))) &&
      AuthApi.RegisterCorrected(Received(reply)) ==
        AuthApi.Threw(AuthApi.Raised(JStr(if "email" in errs || "username" in errs then AuthApi.DataInUse else AuthApi.TryAgain)))
  {
    Views.RegistrationRejected(env, debug, req, users, nextId);
    var reply := ServeCall(env, debug, RegistrationView, req, users, nextId);
    RejectionMessages(reply.body, Serializers.ValidateRegistration(env, req.data, users).error);
    assert Received(reply) == AuthApi.HttpError(400, Some(reply.body));
  }

  // ---------------------------------------------------------------------------
  // Login, then the next request

  /** The cookies a browser sends back after a reply: the values the reply set. */
  function Jar(reply: Views.Reply): map<string, string> {
    map k | k in reply.cookies :: reply.cookies[k].value
  }

  /** After a successful login, the next request carrying the cookies it set
      is authenticated as the user who logged in, if that user is active. */
  lemma LoginThenAuthenticated(env: Framework.Env, debug: bool, req: Views.Request,
                               users: seq<User>, nextId: nat, u: User)
    requires Framework.Coherent(env)
    requires Unique(users) && Below(users, nextId) && req.verb == Views.POST
    requires Serializers.ValidateLogin(env, req.data, users).Ok?
    requires u in users && "email" in req.data && u.email == req.data["email"]
    ensures var reply := ServeCall(env, debug, LoginView, req, users, nextId);
      var auth := Authentication.Authenticate(env, users, Jar(reply));
      (u.isActive ==> auth == Authentication.Authenticated(u, Framework.Claims(u.id))) &&
      (!u.isActive ==> auth == Authentication.Rejected("User is inactive", Some(Authentication.UserInactive)))
  {
    Views.LoginSetsBothCookies(env, debug, req, users, nextId);
    var reply := ServeCall(env, debug, LoginView, req, users, nextId);
    var tokens := Serializers.ValidateLogin(env, req.data, users).value;
    var w :| w in users && Some(w.email) == Get(req.data, "email") &&
             tokens == Serializers.TokensFor(env, w.id);
    SameEmailSameRow(users, u, w);
    Views.SessionCookieAttributes(debug, tokens);
    var jar := Jar(reply);
    assert Get(jar, Authentication.AccessCookie) == Some(env.accessFor(Framework.Claims(u.id)));
    if u.isActive {
      Authentication.IssuedAccessTokenAuthenticates(env, users, jar, u);
    } else {
      var claims := Framework.Claims(u.id);
      assert env.validateAccess(env.accessFor(claims)) == Ok(claims);
      var found := Backends.GetUser(users, u.id);
      Authentication.KeyIdentifiesRow(users, found.value, u);
    }
  }

  /** Deleting the account leaves the session cookies in the browser; the
      access token still validates, so the next profile read with it is
      refused with the JWT library's `user_not_found` code. */
  lemma DeletedAccountCookieIsRejected(env: Framework.Env, debug: bool, del: Views.Request, get: Views.Request,
                                       users: seq<User>, nextId: nat)
    requires Unique(users) && Below(users, nextId)
    requires del.verb == Views.DELETE && Authentication.Authenticate(env, users, del.cookies).Authenticated?
    requires get.verb == Views.GET && get.cookies == del.cookies
    ensures var st := Views.Serve(env, debug, DeleteUserView, del, users, nextId);
      st.result.value.cookies == map[] &&
      ServeCall(env, debug, CurrentUserView, get, st.users, st.nextId) ==
        Views.Reply(401, JObj(map["detail" := JStr("User not found"), "code" := JStr(Authentication.UserNotFound)]), map[])
  {
    Views.DeleteStep(env, debug, del, users, nextId);
    var auth := Authentication.Authenticate(env, users, del.cookies);
    var rest := Models.Without(users, auth.user.id);
    var claims := env.validateAccess(del.cookies[Authentication.AccessCookie]).value;
    assert Backends.GetUser(rest, claims.userId).None?;
    var again := Views.AuthenticateFor(env, CurrentUserView, rest, get);
    assert again == Authentication.Rejected("User not found", Some(Authentication.UserNotFound));
    Views.RejectedServe(env, debug, CurrentUserView, get, rest, nextId);
  }

  /** Registration round trip: once the API has created the account, logging
      in with the stored email and the submitted password is accepted and
      issues the tokens of the new row. */
  lemma RegisterThenLogin(env: Framework.Env, debug: bool, req: Views.Request,
                          users: seq<User>, nextId: nat)
    requires Unique(users) && Below(users, nextId) && req.verb == Views.POST
    requires ServeCall(env, debug, RegistrationView, req, users, nextId).status == 201
    requires "email" in req.data ==> env.normalizeEmail(req.data["email"]) != ""
    ensures var st := Views.Serve(env, debug, RegistrationView, req, users, nextId);
      "email" in req.data && "password" in req.data &&
      Serializers.LoginValidate(env, st.users, Some(env.normalizeEmail(req.data["email"])), Some(req.data["password"]))
        == Ok(Serializers.TokensFor(env, nextId))
  {
    Views.RegistrationReplies(env, debug, req, users, nextId);
    var st := Views.Serve(env, debug, RegistrationView, req, users, nextId);
    var row := st.users[|users|];
    assert st.users == users + [row];
    assert |req.data["password"]| >= Serializers.PasswordMinLength;
    NewRowLogsIn(env, users, row, req.data["password"]);
  }

  /** A row appended under an email no other row has is found by that email,
      and its password logs it in. */
  lemma NewRowLogsIn(env: Framework.Env, users: seq<User>, row: User, password: string)
    requires row.email != "" && password != "" && !EmailTaken(users, row.email)
    requires Framework.CheckPassword(env, row.passwordHash, Some(password))
    ensures Serializers.LoginValidate(env, users + [row], Some(row.email), Some(password)) == Ok(Serializers.TokensFor(env, row.id))
  {
    var table := users + [row];
    var found := Backends.FirstWithEmail(table, Some(row.email));
    assert EmailTaken(table, row.email) by { assert table[|users|] == row; }
    assert found.value == row by {
      var w := found.value;
      var k :| 0 <= k < |table| && table[k] == w;
      assert forall j :: 0 <= j < |users| ==> table[j] == users[j] && users[j] in users;
      assert w !in users;
    }
  }

  /** Profile update round trip: after an accepted PUT, a GET with the same
      cookies on the saved table answers with the updated row. */
  lemma UpdateThenGet(env: Framework.Env, debug: bool, put: Views.Request, get: Views.Request,
                      users: seq<User>, nextId: nat)
    requires Unique(users) && Below(users, nextId)
    requires put.verb == Views.PUT && get.verb == Views.GET && get.cookies == put.cookies
    requires Authentication.Authenticate(env, users, put.cookies).Authenticated?
    requires Serializers.ValidateUpdate(env, users, Authentication.Authenticate(env, users, put.cookies).user,
                                        put.data, put.avatarUpload).Ok?
    ensures var st := Views.Serve(env, debug, CurrentUserView, put, users, nextId);
      var v := Serializers.ValidateUpdate(env, users, Authentication.Authenticate(env, users, put.cookies).user,
                                          put.data, put.avatarUpload).value;
      Unique(st.users) && Below(st.users, st.nextId) &&
      Views.Serve(env, debug, CurrentUserView, get, st.users, st.nextId).result.value ==
        Views.Reply(200, Serializers.Represent(env, v, true), map[])
  {
    var auth := Authentication.Authenticate(env, users, put.cookies);
    var u := auth.user;
    var v := Serializers.ValidateUpdate(env, users, u, put.data, put.avatarUpload).value;
    Views.ProfilePutReplies(env, debug, put, users, nextId);
    var st := Views.Serve(env, debug, CurrentUserView, put, users, nextId);
    assert st.users == Replace(users, v);
    ReplaceKeepsUnique(users, v);
    ReplaceKeepsBelow(users, v, nextId);
    UpdatedRowIsFound(users, u, v);
    assert Authentication.Authenticate(env, st.users, get.cookies) == Authentication.Authenticated(v, auth.claims);
    Views.ProfileGet(env, debug, get, st.users, st.nextId);
  }

  /** The row that replaced `u` is the one its key now finds. */
  lemma UpdatedRowIsFound(users: seq<User>, u: User, v: User)
    requires Unique(users) && u in users && v.id == u.id && FitsAmong(users, v)
    ensures Backends.GetUser(Replace(users, v), v.id) == Some(v)
  {
    var r := Replace(users, v);
    ReplaceKeepsUnique(users, v);
    var i :| 0 <= i < |users| && users[i] == u;
    assert r[i] == v && v in r;
    var found := Backends.GetUser(r, v.id);
    Authentication.KeyIdentifiesRow(r, found.value, v);
  }

  /** The email is unique, so it identifies a row. */
  lemma SameEmailSameRow(users: seq<User>, a: User, b: User)
    requires Unique(users) && a in users && b in users && a.email == b.email
    ensures a == b
  {
    var i :| 0 <= i < |users| && users[i] == a;
    var j :| 0 <= j < |users| && users[j] == b;
    StrIdentifiesUser(users, i, j);
  }

  // ---------------------------------------------------------------------------
  // The client's session probes against the API

  /** The request a probe makes: only the cookie the probe puts in the header. */
  function ProbeRequest(verb: Views.HttpMethod, name: string, token: string): Views.Request {
    Views.Request(verb, map[name := token], map[], None)
  }

  /** The gate's access probe lets a request through exactly when the API
      authenticates its access cookie. */
  lemma GateFollowsAuthenticator(env: Framework.Env, debug: bool, pathname: string,
                                 cookies: map<string, string>, refresh: AuthApi.Transport,
                                 users: seq<User>, nextId: nat)
    requires Unique(users) && Below(users, nextId)
    requires !Middleware.Bypassed(pathname) && Filled(Get(cookies, Middleware.AccessCookie))
    ensures var probe := ProbeRequest(Views.GET, Authentication.AccessCookie, cookies[Middleware.AccessCookie]);
      var reply := ServeCall(env, debug, CurrentUserView, probe, users, nextId);
      Middleware.Decide(pathname, cookies, Received(reply), refresh) == Middleware.Next <==>
        Authentication.Authenticate(env, users, probe.cookies).Authenticated?
  {
    var probe := ProbeRequest(Views.GET, Authentication.AccessCookie, cookies[Middleware.AccessCookie]);
    var auth := Authentication.Authenticate(env, users, probe.cookies);
    if auth.Authenticated? {
      Views.ProfileGet(env, debug, probe, users, nextId);
    }
    AuthApi.ErrorsPropagate(AuthApi.GetUserOp, Received(ServeCall(env, debug, CurrentUserView, probe, users, nextId)));
  }

  /** The provider's refresh signs in exactly when the API authenticates the
      request's cookies, and then holds the user as the API represents it. */
  lemma ProviderFollowsAuthenticator(env: Framework.Env, debug: bool, s: AuthProvider.Session,
                                     req: Views.Request, users: seq<User>, nextId: nat)
    requires Unique(users) && Below(users, nextId) && req.verb == Views.GET
    ensures var auth := Authentication.Authenticate(env, users, req.cookies);
      var after := AuthProvider.AfterRefresh(s, Received(ServeCall(env, debug, CurrentUserView, req, users, nextId)));
      (after.isAuthenticated <==> auth.Authenticated?) &&
      (auth.Authenticated? ==> after.user == Serializers.Represent(env, auth.user, true))
  {
    var auth := Authentication.Authenticate(env, users, req.cookies);
    if auth.Authenticated? {
      Views.ProfileGet(env, debug, req, users, nextId);
    }
  }
}
