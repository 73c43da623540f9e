/** The API views (`backend/users/views.py`) as transitions of the response's
    cookie jar and of the users table, run the way the REST framework runs
    every view: authenticate with the view's authentication classes, check
    its permission classes, find the handler for the method, and turn an
    exception into an error response. */
module Views {
  import opened Common
  import Settings
  import Framework
  import opened Models
  import Authentication
  import Serializers
  import opened Urls

  datatype HttpMethod = GET | HEAD | POST | PUT | PATCH | DELETE | OPTIONS

  /** One cookie in a response: what `set_cookie` was given. */
  datatype Morsel = Morsel(
    value: string, httpOnly: bool, secure: bool,
    sameSite: Option<Settings.SameSite>, maxAge: nat)

  /** What `delete_cookie` writes: an empty value that expires at once. */
  const Expired: Morsel := Morsel("", false, false, None, 0)

  /** A response as a value: status, JSON body, cookies by name. */
  datatype Reply = Reply(status: nat, body: Json, cookies: map<string, Morsel>)

  /** The parts of a request the views read. `data` holds the form or JSON
      fields; `avatarUpload` a file uploaded under `avatar`. */
  datatype Request = Request(
    verb: HttpMethod,
    cookies: map<string, string>,
    data: map<string, string>,
    avatarUpload: Option<Framework.Upload>)

  /** An exception a view lets escape, before the framework renders it. */
  datatype Raised =
    | ValidationFailed(detail: Json)   // `ValidationError`
    | AuthFailed(message: string, code: Option<string>)  // `AuthenticationFailed`, with its code when it has one
    | TokenRejected(message: string)   // the JWT library's `InvalidToken`
    | NotAuthenticated                 // a permission refused an anonymous request
    | MethodNotAllowed(verb: HttpMethod)
    | ServerError                      // anything the framework does not handle

  /** A response being built, changed in place by `set_cookie` and `delete_cookie`. */
  class Response {
    var status: nat
    var body: Json
    var cookies: map<string, Morsel>

    constructor (status: nat, body: Json)
      ensures this.status == status && this.body == body && cookies == map[]
    {
      this.status := status;
      this.body := body;
      cookies := map[];
    }

    function Value(): Reply
      reads this
    {
      Reply(status, body, cookies)
    }

    method SetCookie(key: string, value: string, httpOnly: bool, secure: bool,
                     sameSite: Settings.SameSite, maxAge: nat)
      modifies this
      ensures cookies == old(cookies)[key := Morsel(value, httpOnly, secure, Some(sameSite), maxAge)]
      ensures status == old(status) && body == old(body)
    {
      cookies := cookies[key := Morsel(value, httpOnly, secure, Some(sameSite), maxAge)];
    }

    method DeleteCookie(key: string)
      modifies this
      ensures cookies == old(cookies)[key := Expired]
      ensures status == old(status) && body == old(body)
    {
      cookies := cookies[key := Expired];
    }
  }

  // ---------------------------------------------------------------------------
  // How each view is configured

  /** `authentication_classes`: the login and registration views opt out. */
  function AuthenticationClasses(v: View): seq<Settings.Authenticator> {
    match v
    case RegistrationView => []
    case LoginView => []
    case _ => Settings.DefaultAuthenticationClasses
  }

  /** `permission_classes`: the logout view keeps the default. */
  function PermissionClasses(v: View): seq<Settings.Permission> {
    match v
    case RegistrationView => [Settings.AllowAny]
    case LoginView => [Settings.AllowAny]
    case RefreshTokenView => [Settings.AllowAny]
    case LogoutView => Settings.DefaultPermissionClasses
    case CurrentUserView => [Settings.IsAuthenticated]
    case DeleteUserView => [Settings.IsAuthenticated]
  }

  /** The methods each view has a handler for: its own, HEAD wherever there
      is a GET handler, and OPTIONS everywhere. */
  predicate Handles(v: View, m: HttpMethod) {
    m == OPTIONS ||
    match v
    case RegistrationView => m == POST
    case LoginView => m == POST
    case RefreshTokenView => m == POST
    case LogoutView => m == POST
    case CurrentUserView => m == GET || m == HEAD || m == PUT
    case DeleteUserView => m == DELETE
  }

  function MethodName(m: HttpMethod): string {
    match m
    case GET => "GET" case HEAD => "HEAD" case POST => "POST" case PUT => "PUT"
    case PATCH => "PATCH" case DELETE => "DELETE" case OPTIONS => "OPTIONS"
  }

  /** The view's class name without its `View` suffix, split into words. */
  function ViewName(v: View): string {
    match v
    case RegistrationView => "Registration"
    case LoginView => "Login"
    case RefreshTokenView => "Refresh Token"
    case LogoutView => "Logout"
    case CurrentUserView => "Current User"
    case DeleteUserView => "Delete User"
  }

  /** The media types of the parsers a view accepts: the framework's defaults,
      or the multipart and form parsers the profile view declares. */
  function Parses(v: View): seq<string> {
    if v == CurrentUserView then ["multipart/form-data", "application/x-www-form-urlencoded"]
    else ["application/json", "application/x-www-form-urlencoded", "multipart/form-data"]
  }

  /** What OPTIONS answers: the view's name and the media types it renders
      and parses. */
  function Metadata(v: View): (j: Json)
    ensures j.JObj? && j.fields.Keys == {"name", "renders", "parses"}
    ensures j.fields["name"] == JStr(ViewName(v))
    ensures j.fields["renders"] == JArr([JStr("application/json"), JStr("text/html")])
    ensures j.fields["parses"].JArr? && |j.fields["parses"].items| == |Parses(v)|
    ensures forall i :: 0 <= i < |Parses(v)| ==> j.fields["parses"].items[i] == JStr(Parses(v)[i])
  {
    JObj(map["name" := JStr(ViewName(v)),
             "renders" := JArr([JStr("application/json"), JStr("text/html")]),
             "parses" := JArr(seq(|Parses(v)|, i requires 0 <= i < |Parses(v)| => JStr(Parses(v)[i])))])
  }

  /** How the framework renders an escaped exception. Authentication failures
      are 401 when the view has an authenticator to name in `WWW-Authenticate`,
      and 403 otherwise. */
  function ErrorReply(v: View, e: Raised): (r: Reply)
    ensures r.cookies == map[]
    ensures e.AuthFailed? || e.TokenRejected? || e.NotAuthenticated? ==>
      r.status == (if AuthenticationClasses(v) != [] then 401 else 403)
    // a rejected JWT also carries the library's error code
    ensures e.TokenRejected? ==>
      r.body == JObj(map["detail" := JStr(e.message), "code" := JStr(TokenNotValid)])
    // an authentication failure shows its message, and its code when it was raised with one
    ensures e.AuthFailed? && e.code.None? ==> r.body == JObj(map["detail" := JStr(e.message)])
    ensures e.AuthFailed? && e.code.Some? ==>
      r.body == JObj(map["detail" := JStr(e.message), "code" := JStr(e.code.value)])
  {
    var authStatus := if AuthenticationClasses(v) != [] then 401 else 403;
    match e
    case ValidationFailed(d) => Reply(400, d, map[])
    case AuthFailed(m, None) => Reply(authStatus, Detail(m), map[])
    case AuthFailed(m, Some(c)) => Reply(authStatus, JObj(map["detail" := JStr(m), "code" := JStr(c)]), map[])
    case TokenRejected(m) => Reply(authStatus, JObj(map["detail" := JStr(m), "code" := JStr(TokenNotValid)]), map[])
    case NotAuthenticated => Reply(authStatus, Detail("Authentication credentials were not provided."), map[])
    case MethodNotAllowed(m) => Reply(405, Detail("Method \"" + MethodName(m) + "\" not allowed."), map[])
    case ServerError => Reply(500, JNull, map[])
  }

  const TokenNotValid: string := "token_not_valid"

  function Detail(message: string): Json {
    JObj(map["detail" := JStr(message)])
  }

  /** A serializer's `errors`: every failing field with its error codes. */
  function ErrorsJson(errs: map<string, seq<Serializers.FieldError>>): (j: Json)
    ensures j.JObj? && j.fields.Keys == errs.Keys
    ensures forall k :: k in j.fields ==> j.fields[k].JArr? && |j.fields[k].items| == |errs[k]|
    ensures forall k, i :: k in errs && 0 <= i < |errs[k]| ==>
      j.fields[k].items[i] == JStr(Serializers.Code(errs[k][i]))
  {
    JObj(map k | k in errs :: JArr(seq(|errs[k]|, i requires 0 <= i < |errs[k]| => JStr(Serializers.Code(errs[k][i])))))
  }

  function Message(success: bool, message: string): Json {
    JObj(map["success" := JBool(success), "message" := JStr(message)])
  }

  // ---------------------------------------------------------------------------
  // The handlers as functions of the request and the table

  /** The outcome of a handler and the table it leaves behind. */
  datatype Step = Step(result: Result<Reply, Raised>, users: seq<User>, nextId: nat)

  function Cookie(value: string, s: Settings.CookieSettings, maxAge: nat): Morsel {
    Morsel(value, s.httpOnly, s.secure, Some(s.sameSite), maxAge)
  }

  /** The two cookies login and refresh write. */
  function SessionCookies(s: Settings.CookieSettings, tokens: Serializers.TokenPair): map<string, Morsel> {
    map[Authentication.AccessCookie := Cookie(tokens.access, s, s.accessMaxAge),
        Authentication.RefreshCookie := Cookie(tokens.refresh, s, s.refreshMaxAge)]
  }

  /** `RegistrationView.post`. */
  function RegistrationStep(env: Framework.Env, req: Request, users: seq<User>, nextId: nat): Step {
    match Serializers.ValidateRegistration(env, req.data, users)
    case Err(errs) =>
      Step(Ok(Reply(400, JObj(map["success" := JBool(false), "errors" := ErrorsJson(errs)]), map[])), users, nextId)
    case Ok(reg) =>
      match CreateUserOutcome(users, nextId, reg.email, Some(reg.password), Serializers.CreateFields(reg), env)
      case Err(_) => Step(Err(ServerError), users, nextId)
      case Ok(u) => Step(Ok(Reply(201, Message(true, "Registration successful"), map[])), users + [u], nextId + 1)
  }

  /** `LoginView.post`. */
  function LoginStep(env: Framework.Env, s: Settings.CookieSettings, req: Request, users: seq<User>)
    : Result<Reply, Raised>
  {
    match Serializers.ValidateLogin(env, req.data, users)
    case Err(LoginFieldErrors(errs)) => Err(ValidationFailed(ErrorsJson(errs)))
    case Err(LoginRejected(m)) => Err(AuthFailed(m, None))
    case Ok(tokens) => Ok(Reply(200, Message(true, "Login successful"), SessionCookies(s, tokens)))
  }

  const NoRefreshToken: Json := JObj(map["error" := JStr("No refresh token provided")])

  /** `RefreshTokenView.post`. */
  function RefreshStep(env: Framework.Env, s: Settings.CookieSettings, req: Request, users: seq<User>)
    : Result<Reply, Raised>
  {
    var token := Get(req.cookies, Authentication.RefreshCookie);
    if !Filled(token) then Ok(Reply(400, NoRefreshToken, map[]))
    else match Serializers.RefreshValidate(env, users, token.value)
      case Err(InvalidToken(m)) => Err(TokenRejected(m))
      case Err(UserMissing) => Err(ServerError)
      case Ok(tokens) => Ok(Reply(200, Message(true, "Token successfully refreshed"), SessionCookies(s, tokens)))
  }

  /** `LogoutView.post`. */
  function LogoutReply(): Reply {
    Reply(200, Message(true, "You have successfully logged out"),
          map[Authentication.AccessCookie := Expired, Authentication.RefreshCookie := Expired])
  }

  /** `CurrentUserView.put` for the authenticated `user`. */
  function UpdateStep(env: Framework.Env, req: Request, users: seq<User>, nextId: nat, user: User): Step
    requires Unique(users) && user in users
  {
    match Serializers.ValidateUpdate(env, users, user, req.data, req.avatarUpload)
    case Err(errs) => Step(Err(ValidationFailed(ErrorsJson(errs))), users, nextId)
    case Ok(updated) => Step(Ok(Reply(200, Serializers.Represent(env, updated, false), map[])), Replace(users, updated), nextId)
  }

  const AccountDeleted: Json := JObj(map["success" := JBool(true), "message" := JStr("Your account has been deleted")])

  /** The handler for an authenticated or anonymous request that passed the permission check. */
  function HandlerStep(env: Framework.Env, s: Settings.CookieSettings, v: View, req: Request,
                       users: seq<User>, nextId: nat, auth: Authentication.Outcome): Step
    requires Unique(users)
    requires auth.Authenticated? ==> auth.user in users
    requires Handles(v, req.verb)
    requires (v == CurrentUserView || v == DeleteUserView) ==> auth.Authenticated?
  {
    if req.verb == OPTIONS then Step(Ok(Reply(200, Metadata(v), map[])), users, nextId)
    else match v
    case RegistrationView => RegistrationStep(env, req, users, nextId)
    case LoginView => Step(LoginStep(env, s, req, users), users, nextId)
    case RefreshTokenView => Step(RefreshStep(env, s, req, users), users, nextId)
    case LogoutView => Step(Ok(LogoutReply()), users, nextId)
    case CurrentUserView =>
      if req.verb == GET || req.verb == HEAD then
        Step(Ok(Reply(200, Serializers.Represent(env, auth.user, true), map[])), users, nextId)
      else UpdateStep(env, req, users, nextId, auth.user)
    case DeleteUserView => Step(Ok(Reply(204, AccountDeleted, map[])), Without(users, auth.user.id), nextId)
  }

  /** What the request's authenticators say: nothing to say when the view has none. */
  function AuthenticateFor(env: Framework.Env, v: View, users: seq<User>, req: Request): Authentication.Outcome {
    if AuthenticationClasses(v) == [] then Authentication.Anonymous
    else Authentication.Authenticate(env, users, req.cookies)
  }

  /** Whether every permission class admits the request. */
  predicate Permitted(v: View, auth: Authentication.Outcome) {
    Settings.IsAuthenticated in PermissionClasses(v) ==> auth.Authenticated?
  }

  /** `APIView.dispatch`: authentication, permissions, handler lookup, handler. */
  function Serve(env: Framework.Env, debug: bool, v: View, req: Request, users: seq<User>, nextId: nat): (st: Step)
    requires Unique(users) && Below(users, nextId)
    ensures st.result.Ok?
    ensures Unique(st.users) && Below(st.users, st.nextId)
  {
    var auth := AuthenticateFor(env, v, users, req);
    if auth.Rejected? then Step(Ok(ErrorReply(v, AuthFailed(auth.message, auth.code))), users, nextId)
    else if !Permitted(v, auth) then Step(Ok(ErrorReply(v, NotAuthenticated)), users, nextId)
    else if !Handles(v, req.verb) then Step(Ok(ErrorReply(v, MethodNotAllowed(req.verb))), users, nextId)
    else
      StepKeepsTable(env, debug, v, req, users, nextId, auth);
      var step := HandlerStep(env, Settings.Cookies(debug), v, req, users, nextId, auth);
      match step.result
      case Ok(_) => step
      case Err(e) => Step(Ok(ErrorReply(v, e)), step.users, step.nextId)
  }

  /** Every handler leaves a well-formed table. */
  lemma StepKeepsTable(env: Framework.Env, debug: bool, v: View, req: Request, users: seq<User>, nextId: nat,
                       auth: Authentication.Outcome)
    requires Unique(users) && Below(users, nextId)
    requires auth == AuthenticateFor(env, v, users, req)
    requires !auth.Rejected? && Permitted(v, auth) && Handles(v, req.verb)
    ensures var st := HandlerStep(env, Settings.Cookies(debug), v, req, users, nextId, auth);
      Unique(st.users) && Below(st.users, st.nextId)
  {
    match v {
      case RegistrationView =>
        RegistrationKeepsTable(env, req, users, nextId);
      case CurrentUserView =>
        if req.verb == PUT {
          UpdateKeepsTable(env, req, users, nextId, auth.user);
        }
      case DeleteUserView =>
        WithoutKeepsUnique(users, auth.user.id);
      case _ =>
    }
  }

  lemma RegistrationKeepsTable(env: Framework.Env, req: Request, users: seq<User>, nextId: nat)
    requires Unique(users) && Below(users, nextId)
    ensures var st := RegistrationStep(env, req, users, nextId);
      Unique(st.users) && Below(st.users, st.nextId)
  {
    var r := Serializers.ValidateRegistration(env, req.data, users);
    if r.Ok? {
      var reg := r.value;
      if CreateUserOutcome(users, nextId, reg.email, Some(reg.password), Serializers.CreateFields(reg), env).Ok? {
        CreateUserKeepsUnique(users, nextId, reg.email, Some(reg.password), Serializers.CreateFields(reg), env);
      }
    }
  }

  lemma UpdateKeepsTable(env: Framework.Env, req: Request, users: seq<User>, nextId: nat, user: User)
    requires Unique(users) && Below(users, nextId) && user in users
    ensures var st := UpdateStep(env, req, users, nextId, user);
      Unique(st.users) && Below(st.users, st.nextId)
  {
    var r := Serializers.ValidateUpdate(env, users, user, req.data, req.avatarUpload);
    if r.Ok? {
      ReplaceKeepsUnique(users, r.value);
      ReplaceKeepsBelow(users, r.value, nextId);
    }
  }

  /** The reply a request gets. */
  function ReplyTo(env: Framework.Env, debug: bool, v: View, req: Request, users: seq<User>, nextId: nat): Reply
    requires Unique(users) && Below(users, nextId)
  {
    Serve(env, debug, v, req, users, nextId).result.value
  }

  // ---------------------------------------------------------------------------
  // The handlers as they run: a `Response` built and changed in place, and
  // the users table changed through the manager

  /** `RegistrationView.post`. */
  method Register(store: UserStore, env: Framework.Env, req: Request) returns (r: Result<Reply, Raised>)
    requires store.Valid()
    modifies store
    ensures store.Valid()
    ensures RegistrationStep(env, req, old(store.users), old(store.nextId)) == Step(r, store.users, store.nextId)
  {
    var validated := Serializers.ValidateRegistration(env, req.data, store.users);
    if validated.Err? {
      var response := new Response(400, JObj(map["success" := JBool(false), "errors" := ErrorsJson(validated.error)]));
      return Ok(response.Value());
    }
    var reg := validated.value;
    var created := store.CreateUser(reg.email, Some(reg.password), Serializers.CreateFields(reg), env);
    if created.Err? {
      return Err(ServerError);
    }
    var response := new Response(201, Message(true, "Registration successful"));
    r := Ok(response.Value());
  }

  /** Writes the access and the refresh cookie, in that order. */
  method SetSessionCookies(response: Response, s: Settings.CookieSettings, tokens: Serializers.TokenPair)
    modifies response
    ensures response.cookies == old(response.cookies) + SessionCookies(s, tokens)
    ensures response.status == old(response.status) && response.body == old(response.body)
  {
    response.SetCookie(Authentication.AccessCookie, tokens.access, s.httpOnly, s.secure, s.sameSite, s.accessMaxAge);
    response.SetCookie(Authentication.RefreshCookie, tokens.refresh, s.httpOnly, s.secure, s.sameSite, s.refreshMaxAge);
  }

  /** `LoginView.post`. */
  method Login(env: Framework.Env, s: Settings.CookieSettings, req: Request, users: seq<User>)
    returns (r: Result<Reply, Raised>)
    ensures r == LoginStep(env, s, req, users)
  {
    var validated := Serializers.ValidateLogin(env, req.data, users);
    ghost var step := LoginStep(env, s, req, users);
    match validated {
      case Err(LoginFieldErrors(errs)) =>
        assert step == Err(ValidationFailed(ErrorsJson(errs)));
        return Err(ValidationFailed(ErrorsJson(errs)));
      case Err(LoginRejected(m)) =>
        assert step == Err(AuthFailed(m, None));
        return Err(AuthFailed(m, None));
      case Ok(tokens) =>
        var response := new Response(200, Message(true, "Login successful"));
        SetSessionCookies(response, s, tokens);
        assert response.Value() == Reply(200, Message(true, "Login successful"), SessionCookies(s, tokens));
        return Ok(response.Value());
    }
  }

  /** `RefreshTokenView.post`. */
  method Refresh(env: Framework.Env, s: Settings.CookieSettings, req: Request, users: seq<User>)
    returns (r: Result<Reply, Raised>)
    ensures r == RefreshStep(env, s, req, users)
  {
    var token := Get(req.cookies, Authentication.RefreshCookie);
    if !Filled(token) {
      var response := new Response(400, NoRefreshToken);
      return Ok(response.Value());
    }
    var validated := Serializers.RefreshValidate(env, users, token.value);
    match validated {
      case Err(InvalidToken(m)) => return Err(TokenRejected(m));
      case Err(UserMissing) => return Err(ServerError);
      case Ok(tokens) =>
        var response := new Response(200, Message(true, "Token successfully refreshed"));
        SetSessionCookies(response, s, tokens);
        assert response.cookies == SessionCookies(s, tokens);
        return Ok(response.Value());
    }
  }

  /** `LogoutView.post`. */
  method Logout() returns (r: Reply)
    ensures r == LogoutReply()
  {
    var response := new Response(200, Message(true, "You have successfully logged out"));
    response.DeleteCookie(Authentication.AccessCookie);
    response.DeleteCookie(Authentication.RefreshCookie);
    r := response.Value();
  }

  /** `CurrentUserView.put`: a partial update of the authenticated user. */
  method UpdateProfile(store: UserStore, env: Framework.Env, req: Request, user: User) returns (r: Result<Reply, Raised>)
    requires store.Valid() && user in store.users
    modifies store
    ensures store.Valid()
    ensures UpdateStep(env, req, old(store.users), old(store.nextId), user) == Step(r, store.users, store.nextId)
  {
    var validated := Serializers.ValidateUpdate(env, store.users, user, req.data, req.avatarUpload);
    if validated.Err? {
      return Err(ValidationFailed(ErrorsJson(validated.error)));
    }
    store.Update(validated.value);
    var response := new Response(200, Serializers.Represent(env, validated.value, false));
    r := Ok(response.Value());
  }

  /** `DeleteUserView.delete`. */
  method DeleteAccount(store: UserStore, user: User) returns (r: Reply)
    requires store.Valid()
    modifies store
    ensures store.Valid()
    ensures r == Reply(204, AccountDeleted, map[])
    ensures store.users == Without(old(store.users), user.id) && store.nextId == old(store.nextId)
  {
    store.Delete(user.id);
    var response := new Response(204, AccountDeleted);
    r := response.Value();
  }

  /** `APIView.dispatch` over the users table: the reply and the new table are
      those `Serve` describes. */
  method Dispatch(store: UserStore, env: Framework.Env, debug: bool, v: View, req: Request) returns (reply: Reply)
    requires store.Valid()
    modifies store
    ensures store.Valid()
    ensures var st := Serve(env, debug, v, req, old(store.users), old(store.nextId));
      reply == st.result.value && store.users == st.users && store.nextId == st.nextId
  {
    var auth := AuthenticateFor(env, v, store.users, req);
    if auth.Rejected? {
      return ErrorReply(v, AuthFailed(auth.message, auth.code));
    }
    if !Permitted(v, auth) {
      return ErrorReply(v, NotAuthenticated);
    }
    if !Handles(v, req.verb) {
      return ErrorReply(v, MethodNotAllowed(req.verb));
    }
    var outcome := RunHandler(store, env, Settings.Cookies(debug), v, req, auth);
    reply := match outcome case Ok(r) => r case Err(e) => ErrorReply(v, e);
  }

  /** The handler `APIView.dispatch` picks for the method, run on the table. */
  method RunHandler(store: UserStore, env: Framework.Env, s: Settings.CookieSettings, v: View, req: Request,
                    auth: Authentication.Outcome) returns (outcome: Result<Reply, Raised>)
    requires store.Valid()
    requires auth.Authenticated? ==> auth.user in store.users
    requires Handles(v, req.verb)
    requires (v == CurrentUserView || v == DeleteUserView) ==> auth.Authenticated?
    modifies store
    ensures store.Valid()
    ensures Step(outcome, store.users, store.nextId) ==
      HandlerStep(env, s, v, req, old(store.users), old(store.nextId), auth)
  {
    if req.verb == OPTIONS {
      var response := new Response(200, Metadata(v));
      outcome := Ok(response.Value());
    } else {
      match v {
        case RegistrationView => outcome := Register(store, env, req);
        case LoginView => outcome := Login(env, s, req, store.users);
        case RefreshTokenView => outcome := Refresh(env, s, req, store.users);
        case LogoutView =>
          var r := Logout();
          outcome := Ok(r);
        case CurrentUserView =>
          if req.verb == GET || req.verb == HEAD {
            var response := new Response(200, Serializers.Represent(env, auth.user, true));
            outcome := Ok(response.Value());
          } else {
            outcome := UpdateProfile(store, env, req, auth.user);
          }
        case DeleteUserView =>
          var r := DeleteAccount(store, auth.user);
          outcome := Ok(r);
      }
    }
  }

  // ---------------------------------------------------------------------------
  // What each endpoint does, end to end

  /** Registration needs no credentials and sets no cookie; it answers 201
      exactly when the form is valid and a row was added. That row is the only
      change: it has the next key, is active and no staff member, and holds
      the submitted data, the email normalised and the password hashed. */
  lemma RegistrationReplies(env: Framework.Env, debug: bool, req: Request, users: seq<User>, nextId: nat)
    requires Unique(users) && Below(users, nextId) && req.verb == POST
    ensures var st := Serve(env, debug, RegistrationView, req, users, nextId);
      var reply := st.result.value;
      var validated := Serializers.ValidateRegistration(env, req.data, users);
      reply.cookies == map[] &&
      (reply.status == 201 <==> validated.Ok? && st.users != users) &&
      (reply.status == 201 ==>
         reply.body == Message(true, "Registration successful") &&
         |st.users| == |users| + 1 && st.users[..|users|] == users &&
         "email" in req.data && "username" in req.data && "password" in req.data &&
         var row := st.users[|users|];
         row.id == nextId && row.isActive && !row.isStaff && !row.isSuperuser &&
         row.email == env.normalizeEmail(req.data["email"]) && !EmailTaken(users, row.email) &&
         row.username == req.data["username"] &&
         Framework.CheckPassword(env, row.passwordHash, Some(req.data["password"])) &&
         row.firstName == (if "first_name" in req.data then req.data["first_name"] else "") &&
         row.lastName == (if "last_name" in req.data then req.data["last_name"] else "") &&
         row.avatar == "")
  {
    RegistrationServed(env, debug, req, users, nextId);
    if Serializers.ValidateRegistration(env, req.data, users).Err? {
      RegistrationRejected(env, debug, req, users, nextId);
      var st := Serve(env, debug, RegistrationView, req, users, nextId);
      assert st.result.value.status == 400 && st.result.value.cookies == map[] && st.users == users;
    } else {
      AcceptedRegistrationServed(env, debug, req, users, nextId);
    }
  }

  /** The accepted branch of `RegistrationReplies`: the served reply is the
      handler's 201 with the appended row, or a 500 that saves nothing. */
  lemma AcceptedRegistrationServed(env: Framework.Env, debug: bool, req: Request, users: seq<User>, nextId: nat)
    requires Unique(users) && Below(users, nextId) && req.verb == POST
    requires Serializers.ValidateRegistration(env, req.data, users).Ok?
    ensures var st := Serve(env, debug, RegistrationView, req, users, nextId);
      var reply := st.result.value;
      reply.cookies == map[] &&
      (reply.status == 201 <==> st.users != users) &&
      (reply.status == 201 ==>
         reply.body == Message(true, "Registration successful") &&
         |st.users| == |users| + 1 && st.users[..|users|] == users &&
         "email" in req.data && "username" in req.data && "password" in req.data &&
         var row := st.users[|users|];
         row.id == nextId && row.isActive && !row.isStaff && !row.isSuperuser &&
         row.email == env.normalizeEmail(req.data["email"]) && !EmailTaken(users, row.email) &&
         row.username == req.data["username"] &&
         Framework.CheckPassword(env, row.passwordHash, Some(req.data["password"])) &&
         row.firstName == (if "first_name" in req.data then req.data["first_name"] else "") &&
         row.lastName == (if "last_name" in req.data then req.data["last_name"] else "") &&
         row.avatar == "")
  {
    RegistrationServed(env, debug, req, users, nextId);
    AcceptedRegistrationStep(env, req, users, nextId);
    var step := RegistrationStep(env, req, users, nextId);
    var st := Serve(env, debug, RegistrationView, req, users, nextId);
    if step.result.Ok? {
      assert st == step;
      assert step.users != users by { assert |step.users| != |users|; }
    } else {
      assert st == Step(Ok(Reply(500, JNull, map[])), users, nextId);
    }
  }

  /** The registration handler on a valid form: the manager either refuses
      the row (a server error, nothing saved) or appends exactly the row built
      from the submitted data, and the handler answers 201. */
  lemma AcceptedRegistrationStep(env: Framework.Env, req: Request, users: seq<User>, nextId: nat)
    requires Unique(users) && Below(users, nextId)
    requires Serializers.ValidateRegistration(env, req.data, users).Ok?
    ensures var step := RegistrationStep(env, req, users, nextId);
      (step.result.Err? ==> step.result.error == ServerError && step.users == users && step.nextId == nextId) &&
      (step.result.Ok? ==>
         step.result.value == Reply(201, Message(true, "Registration successful"), map[]) &&
         |step.users| == |users| + 1 && step.users[..|users|] == users &&
         "email" in req.data && "username" in req.data && "password" in req.data &&
         var row := step.users[|users|];
         row.id == nextId && row.isActive && !row.isStaff && !row.isSuperuser &&
         row.email == env.normalizeEmail(req.data["email"]) && !EmailTaken(users, row.email) &&
         row.username == req.data["username"] &&
         Framework.CheckPassword(env, row.passwordHash, Some(req.data["password"])) &&
         row.firstName == (if "first_name" in req.data then req.data["first_name"] else "") &&
         row.lastName == (if "last_name" in req.data then req.data["last_name"] else "") &&
         row.avatar == "")
  {
    var reg := Serializers.ValidateRegistration(env, req.data, users).value;
    var created := CreateUserOutcome(users, nextId, reg.email, Some(reg.password), Serializers.CreateFields(reg), env);
    if created.Ok? {
      assert (users + [created.value])[..|users|] == users;
      assert (users + [created.value])[|users|] == created.value;
    }
  }

  /** Invalid registration input gets 400 with `success: false` and the
      failing fields under `errors`, and saves nothing. */
  lemma RegistrationRejected(env: Framework.Env, debug: bool, req: Request, users: seq<User>, nextId: nat)
    requires Unique(users) && Below(users, nextId) && req.verb == POST
    requires Serializers.ValidateRegistration(env, req.data, users).Err?
    ensures var st := Serve(env, debug, RegistrationView, req, users, nextId);
      var reply := st.result.value;
      var errs := Serializers.ValidateRegistration(env, req.data, users).error;
      reply.status == 400 && reply.cookies == map[] && st.users == users && st.nextId == nextId &&
      reply.body.JObj? && reply.body.fields.Keys == {"success", "errors"} &&
      reply.body.fields["success"] == JBool(false) &&
      reply.body.fields["errors"] == ErrorsJson(errs)
  {
    RegistrationServed(env, debug, req, users, nextId);
    RejectedRegistrationStep(env, req, users, nextId);
    var errs := Serializers.ValidateRegistration(env, req.data, users).error;
    var body := JObj(map["success" := JBool(false), "errors" := ErrorsJson(errs)]);
    assert Serve(env, debug, RegistrationView, req, users, nextId) == Step(Ok(Reply(400, body, map[])), users, nextId);
  }

  /** The registration handler answers an invalid form itself, with 400. */
  lemma RejectedRegistrationStep(env: Framework.Env, req: Request, users: seq<User>, nextId: nat)
    requires Serializers.ValidateRegistration(env, req.data, users).Err?
    ensures var errs := Serializers.ValidateRegistration(env, req.data, users).error;
      RegistrationStep(env, req, users, nextId) ==
        Step(Ok(Reply(400, JObj(map["success" := JBool(false), "errors" := ErrorsJson(errs)]), map[])), users, nextId)
  {
  }

  /** The registration view runs no authenticator and admits everyone, so a
      POST goes straight to the handler, whose escaped error is rendered. */
  lemma RegistrationServed(env: Framework.Env, debug: bool, req: Request, users: seq<User>, nextId: nat)
    requires Unique(users) && Below(users, nextId) && req.verb == POST
    ensures var step := RegistrationStep(env, req, users, nextId);
      Serve(env, debug, RegistrationView, req, users, nextId) ==
        match step.result
        case Ok(_) => step
        case Err(e) => Step(Ok(ErrorReply(RegistrationView, e)), step.users, step.nextId)
  {
    var auth := AuthenticateFor(env, RegistrationView, users, req);
    assert auth == Authentication.Anonymous;
    assert Permitted(RegistrationView, auth) && Handles(RegistrationView, req.verb);
    ServeHandled(env, debug, RegistrationView, req, users, nextId);
    assert HandlerStep(env, Settings.Cookies(debug), RegistrationView, req, users, nextId, auth)
        == RegistrationStep(env, req, users, nextId);
  }

  /** The two session cookies as login and refresh write them: the token
      values, the access cookie as long-lived as its token, the refresh
      cookie a week, and the attributes `DEBUG` selects. */
  lemma SessionCookieAttributes(debug: bool, tokens: Serializers.TokenPair)
    ensures var cookies := SessionCookies(Settings.Cookies(debug), tokens);
      cookies.Keys == {Authentication.AccessCookie, Authentication.RefreshCookie} &&
      cookies[Authentication.AccessCookie].value == tokens.access &&
      cookies[Authentication.RefreshCookie].value == tokens.refresh &&
      cookies[Authentication.AccessCookie].maxAge == Settings.AccessTokenLifetime &&
      cookies[Authentication.RefreshCookie].maxAge == 7 * Settings.Day &&
      forall k :: k in cookies ==>
        cookies[k].httpOnly && (cookies[k].secure <==> !debug) &&
        cookies[k].sameSite == Some(if debug then Settings.SameSiteLax else Settings.SameSiteNone)
  {
    var c := Settings.Cookies(debug);
    assert c.refreshMaxAge == 7 * Settings.Day;
    assert c.sameSite == (if debug then Settings.SameSiteLax else Settings.SameSiteNone);
    assert Authentication.AccessCookie != Authentication.RefreshCookie;
  }

  /** Login needs no credentials. On success it replies 200 and writes exactly
      the two session cookies; on failure it writes no cookie. A field error
      is 400; wrong credentials are 403, not 401, because the view has no
      authenticator to name. */
  lemma LoginSetsBothCookies(env: Framework.Env, debug: bool, req: Request, users: seq<User>, nextId: nat)
    requires Unique(users) && Below(users, nextId) && req.verb == POST
    ensures var st := Serve(env, debug, LoginView, req, users, nextId);
      var reply := st.result.value;
      var validated := Serializers.ValidateLogin(env, req.data, users);
      st.users == users &&
      (validated.Ok? ==>
         reply.status == 200 && reply.body == Message(true, "Login successful") &&
         reply.cookies == SessionCookies(Settings.Cookies(debug), validated.value)) &&
      (validated.Err? ==>
         reply.cookies == map[] &&
         reply.status == (if validated.error.LoginFieldErrors? then 400 else 403))
  {
    assert AuthenticateFor(env, LoginView, users, req) == Authentication.Anonymous;
    assert Permitted(LoginView, Authentication.Anonymous);
  }

  /** Refresh runs the cookie authenticator first: an access cookie it rejects
      answers 401 whatever the refresh cookie holds. Past that, a missing or
      empty refresh cookie is 400 with no cookie, an invalid refresh token 401,
      and a valid one rewrites both cookies. */
  lemma RefreshReplies(env: Framework.Env, debug: bool, req: Request, users: seq<User>, nextId: nat)
    requires Unique(users) && Below(users, nextId) && req.verb == POST
    ensures var st := Serve(env, debug, RefreshTokenView, req, users, nextId);
      var reply := st.result.value;
      var auth := Authentication.Authenticate(env, users, req.cookies);
      var token := Get(req.cookies, Authentication.RefreshCookie);
      st.users == users &&
      (auth.Rejected? ==> reply.status == 401 && reply.cookies == map[]) &&
      (!auth.Rejected? && !Filled(token) ==>
         reply == Reply(400, NoRefreshToken, map[])) &&
      (!auth.Rejected? && Filled(token) && env.validateRefresh(token.value).Err? ==>
         reply.status == 401 && reply.cookies == map[]) &&
      (!auth.Rejected? && Filled(token) && Serializers.RefreshValidate(env, users, token.value).Ok? ==>
         reply.status == 200 &&
         reply.body.JObj? && reply.body.fields["success"] == JBool(true) &&
         reply.cookies == SessionCookies(Settings.Cookies(debug), Serializers.RefreshValidate(env, users, token.value).value))
  {
  }

  /** Logout keeps the default permission, so it only runs for an authenticated
      request; then it answers 200 and expires both cookies. */
  lemma LogoutNeedsSession(env: Framework.Env, debug: bool, req: Request, users: seq<User>, nextId: nat)
    requires Unique(users) && Below(users, nextId) && req.verb == POST
    ensures var st := Serve(env, debug, LogoutView, req, users, nextId);
      var reply := st.result.value;
      st.users == users &&
      (reply.status == 200 <==> Authentication.Authenticate(env, users, req.cookies).Authenticated?) &&
      (reply.status == 200 ==>
         reply.cookies == map[Authentication.AccessCookie := Expired, Authentication.RefreshCookie := Expired]) &&
      (reply.status != 200 ==> reply.status == 401 && reply.cookies == map[])
  {
  }

  /** Deleting the account removes exactly the authenticated user's row and
      answers 204; without a session nothing is removed. */
  lemma DeleteRemovesUser(env: Framework.Env, debug: bool, req: Request, users: seq<User>, nextId: nat)
    requires Unique(users) && Below(users, nextId) && req.verb == DELETE
    ensures var st := Serve(env, debug, DeleteUserView, req, users, nextId);
      var reply := st.result.value;
      var auth := Authentication.Authenticate(env, users, req.cookies);
      (auth.Authenticated? ==>
         reply == Reply(204, AccountDeleted, map[]) &&
         auth.user !in st.users &&
         forall u :: u in users && u != auth.user ==> u in st.users) &&
      (!auth.Authenticated? ==> reply.status == 401 && st.users == users)
  {
    var auth := Authentication.Authenticate(env, users, req.cookies);
    if auth.Authenticated? {
      forall u | u in users && u != auth.user ensures u.id != auth.user.id {
        if u.id == auth.user.id {
          Authentication.KeyIdentifiesRow(users, u, auth.user);
        }
      }
    }
  }

  /** An authenticated DELETE removes exactly the caller's row and answers 204. */
  lemma DeleteStep(env: Framework.Env, debug: bool, req: Request, users: seq<User>, nextId: nat)
    requires Unique(users) && Below(users, nextId) && req.verb == DELETE
    requires Authentication.Authenticate(env, users, req.cookies).Authenticated?
    ensures Serve(env, debug, DeleteUserView, req, users, nextId) ==
      Step(Ok(Reply(204, AccountDeleted, map[])), Without(users, Authentication.Authenticate(env, users, req.cookies).user.id), nextId)
  {
    var auth := Authentication.Authenticate(env, users, req.cookies);
    assert AuthenticateFor(env, DeleteUserView, users, req) == auth;
    assert Permitted(DeleteUserView, auth) && Handles(DeleteUserView, req.verb);
  }

  /** A request whose credentials the authenticator refuses gets the rendered
      failure, with its message and code, and changes nothing. */
  lemma RejectedServe(env: Framework.Env, debug: bool, v: View, req: Request, users: seq<User>, nextId: nat)
    requires Unique(users) && Below(users, nextId)
    requires AuthenticateFor(env, v, users, req).Rejected?
    ensures var auth := AuthenticateFor(env, v, users, req);
      Serve(env, debug, v, req, users, nextId) == Step(Ok(ErrorReply(v, AuthFailed(auth.message, auth.code))), users, nextId)
  {
  }

  /** The profile read: GET returns the authenticated user, with absolute
      avatar URLs, and changes nothing. */
  lemma ProfileGet(env: Framework.Env, debug: bool, req: Request, users: seq<User>, nextId: nat)
    requires Unique(users) && Below(users, nextId) && req.verb == GET
    requires Authentication.Authenticate(env, users, req.cookies).Authenticated?
    ensures var st := Serve(env, debug, CurrentUserView, req, users, nextId);
      var u := Authentication.Authenticate(env, users, req.cookies).user;
      st.result.value == Reply(200, Serializers.Represent(env, u, true), map[]) && st.users == users
  {
    var auth := Authentication.Authenticate(env, users, req.cookies);
    ProfileServed(env, debug, req, users, nextId);
    assert HandlerStep(env, Settings.Cookies(debug), CurrentUserView, req, users, nextId, auth)
        == Step(Ok(Reply(200, Serializers.Represent(env, auth.user, true), map[])), users, nextId);
  }

  /** An authenticated PUT either saves the validated row and answers with it,
      or answers 400 with the failing fields and saves nothing. */
  lemma ProfilePutReplies(env: Framework.Env, debug: bool, req: Request, users: seq<User>, nextId: nat)
    requires Unique(users) && Below(users, nextId) && req.verb == PUT
    requires Authentication.Authenticate(env, users, req.cookies).Authenticated?
    ensures var st := Serve(env, debug, CurrentUserView, req, users, nextId);
      var u := Authentication.Authenticate(env, users, req.cookies).user;
      var r := Serializers.ValidateUpdate(env, users, u, req.data, req.avatarUpload);
      st.nextId == nextId &&
      (r.Err? ==> st.result.value == Reply(400, ErrorsJson(r.error), map[]) && st.users == users) &&
      (r.Ok? ==>
         st.result.value == Reply(200, Serializers.Represent(env, r.value, false), map[]) &&
         st.users == Replace(users, r.value))
  {
    var auth := Authentication.Authenticate(env, users, req.cookies);
    ProfileServed(env, debug, req, users, nextId);
    assert HandlerStep(env, Settings.Cookies(debug), CurrentUserView, req, users, nextId, auth)
        == UpdateStep(env, req, users, nextId, auth.user);
  }

  /** The profile update is partial: a form with no fields and no upload
      passes validation and leaves the table as it was. */
  lemma ProfilePutIsPartial(env: Framework.Env, debug: bool, req: Request, users: seq<User>, nextId: nat)
    requires Unique(users) && Below(users, nextId) && req.verb == PUT
    requires req.data == map[] && req.avatarUpload.None?
    requires Authentication.Authenticate(env, users, req.cookies).Authenticated?
    ensures var st := Serve(env, debug, CurrentUserView, req, users, nextId);
      var u := Authentication.Authenticate(env, users, req.cookies).user;
      st.result.value == Reply(200, Serializers.Represent(env, u, false), map[]) && st.users == users
  {
    var auth := Authentication.Authenticate(env, users, req.cookies);
    ProfilePutReplies(env, debug, req, users, nextId);
    EmptyUpdateChangesNothing(env, req, users, nextId, auth.user);
  }

  /** An authenticated GET, HEAD or PUT of the profile passes the permission check
      and runs its handler, whose escaped error is rendered. */
  lemma ProfileServed(env: Framework.Env, debug: bool, req: Request, users: seq<User>, nextId: nat)
    requires Unique(users) && Below(users, nextId) && (req.verb == GET || req.verb == HEAD || req.verb == PUT)
    requires Authentication.Authenticate(env, users, req.cookies).Authenticated?
    ensures var auth := Authentication.Authenticate(env, users, req.cookies);
      var step := HandlerStep(env, Settings.Cookies(debug), CurrentUserView, req, users, nextId, auth);
      Serve(env, debug, CurrentUserView, req, users, nextId) ==
        match step.result
        case Ok(_) => step
        case Err(e) => Step(Ok(ErrorReply(CurrentUserView, e)), step.users, step.nextId)
  {
    assert Permitted(CurrentUserView, Authentication.Authenticate(env, users, req.cookies));
  }

  lemma EmptyUpdateChangesNothing(env: Framework.Env, req: Request, users: seq<User>, nextId: nat, u: User)
    requires Unique(users) && u in users
    requires req.data == map[] && req.avatarUpload.None?
    ensures Serializers.ValidateUpdate(env, users, u, req.data, req.avatarUpload) == Ok(u)
    ensures Replace(users, u) == users
    ensures UpdateStep(env, req, users, nextId, u) == Step(Ok(Reply(200, Serializers.Represent(env, u, false), map[])), users, nextId)
  {
    var others := Serializers.Others(users, u.id);
    assert Serializers.FormErrors(env, Serializers.UpdateRules, map[], others, true) == map[] by {
      EmptyPartialFormPasses(env, Serializers.UpdateRules, others);
    }
    assert Serializers.Applied(env, u, map[], None) == u;
    ReplaceWithItself(users, u);
  }

  /** A partial form with no fields has nothing to complain about. */
  lemma {:induction false} EmptyPartialFormPasses(env: Framework.Env, rules: seq<Serializers.FieldRule>, others: seq<User>)
    ensures Serializers.FormErrors(env, rules, map[], others, true) == map[]
  {
    if rules != [] {
      EmptyPartialFormPasses(env, rules[1..], others);
    }
  }

  /** Replacing a row by itself changes nothing. */
  lemma ReplaceWithItself(users: seq<User>, u: User)
    requires Unique(users) && u in users
    ensures Replace(users, u) == users
  {
    forall i | 0 <= i < |users| ensures Replace(users, u)[i] == users[i] {
      if users[i].id == u.id {
        Authentication.KeyIdentifiesRow(users, users[i], u);
      }
    }
  }

  /** Only login, refresh and logout touch cookies, and only the two session cookies. */
  lemma OnlySessionViewsWriteCookies(env: Framework.Env, debug: bool, v: View, req: Request, users: seq<User>, nextId: nat)
    requires Unique(users) && Below(users, nextId)
    ensures var reply := Serve(env, debug, v, req, users, nextId).result.value;
      reply.cookies.Keys <= {Authentication.AccessCookie, Authentication.RefreshCookie} &&
      (reply.cookies != map[] ==> v == LoginView || v == RefreshTokenView || v == LogoutView)
  {
    var auth := AuthenticateFor(env, v, users, req);
    var reply := Serve(env, debug, v, req, users, nextId).result.value;
    if auth.Rejected? {
      assert reply == ErrorReply(v, AuthFailed(auth.message, auth.code));
    } else if !Permitted(v, auth) {
      assert reply == ErrorReply(v, NotAuthenticated);
    } else if !Handles(v, req.verb) {
      assert reply == ErrorReply(v, MethodNotAllowed(req.verb));
    } else {
      HandledReplyCookies(env, debug, v, req, users, nextId);
    }
  }

  /** The cookie part of `OnlySessionViewsWriteCookies` once the request
      reaches its handler. */
  lemma HandledReplyCookies(env: Framework.Env, debug: bool, v: View, req: Request, users: seq<User>, nextId: nat)
    requires Unique(users) && Below(users, nextId)
    requires var auth := AuthenticateFor(env, v, users, req);
      !auth.Rejected? && Permitted(v, auth) && Handles(v, req.verb)
    ensures var reply := Serve(env, debug, v, req, users, nextId).result.value;
      reply.cookies.Keys <= {Authentication.AccessCookie, Authentication.RefreshCookie} &&
      (reply.cookies != map[] ==> v == LoginView || v == RefreshTokenView || v == LogoutView)
  {
    var auth := AuthenticateFor(env, v, users, req);
    var step := HandlerStep(env, Settings.Cookies(debug), v, req, users, nextId, auth);
    ServeHandled(env, debug, v, req, users, nextId);
    if step.result.Ok? {
      HandlerCookies(env, Settings.Cookies(debug), v, req, users, nextId, auth);
    }
  }

  /** A request that passes authentication and the permission check, with a
      method the view handles, gets its handler's reply, or its handler's
      escaped error rendered. */
  lemma ServeHandled(env: Framework.Env, debug: bool, v: View, req: Request, users: seq<User>, nextId: nat)
    requires Unique(users) && Below(users, nextId)
    requires var auth := AuthenticateFor(env, v, users, req);
      !auth.Rejected? && Permitted(v, auth) && Handles(v, req.verb)
    ensures var step := HandlerStep(env, Settings.Cookies(debug), v, req, users, nextId, AuthenticateFor(env, v, users, req));
      Serve(env, debug, v, req, users, nextId) ==
        match step.result
        case Ok(_) => step
        case Err(e) => Step(Ok(ErrorReply(v, e)), step.users, step.nextId)
  {
  }

  /** The cookies a handler's own reply carries. */
  lemma HandlerCookies(env: Framework.Env, s: Settings.CookieSettings, v: View, req: Request,
                       users: seq<User>, nextId: nat, auth: Authentication.Outcome)
    requires Unique(users)
    requires auth.Authenticated? ==> auth.user in users
    requires Handles(v, req.verb)
    requires (v == CurrentUserView || v == DeleteUserView) ==> auth.Authenticated?
    requires HandlerStep(env, s, v, req, users, nextId, auth).result.Ok?
    ensures var reply := HandlerStep(env, s, v, req, users, nextId, auth).result.value;
      reply.cookies.Keys <= {Authentication.AccessCookie, Authentication.RefreshCookie} &&
      (reply.cookies != map[] ==> v == LoginView || v == RefreshTokenView || v == LogoutView)
  {
    if req.verb == OPTIONS {
      assert HandlerStep(env, s, v, req, users, nextId, auth) == Step(Ok(Reply(200, Metadata(v), map[])), users, nextId);
    } else {
      ViewHandlerCookies(env, s, v, req, users, nextId, auth);
    }
  }

  /** `HandlerCookies` for the view's own methods. */
  lemma ViewHandlerCookies(env: Framework.Env, s: Settings.CookieSettings, v: View, req: Request,
                           users: seq<User>, nextId: nat, auth: Authentication.Outcome)
    requires Unique(users)
    requires auth.Authenticated? ==> auth.user in users
    requires Handles(v, req.verb) && req.verb != OPTIONS
    requires (v == CurrentUserView || v == DeleteUserView) ==> auth.Authenticated?
    requires HandlerStep(env, s, v, req, users, nextId, auth).result.Ok?
    ensures var reply := HandlerStep(env, s, v, req, users, nextId, auth).result.value;
      reply.cookies.Keys <= {Authentication.AccessCookie, Authentication.RefreshCookie} &&
      (reply.cookies != map[] ==> v == LoginView || v == RefreshTokenView || v == LogoutView)
  {
    match v {
      case RegistrationView =>
      case LoginView =>
        var validated := Serializers.ValidateLogin(env, req.data, users);
        assert HandlerStep(env, s, v, req, users, nextId, auth).result == LoginStep(env, s, req, users);
        SessionCookieKeys(s, validated.value);
      case RefreshTokenView =>
        var token := Get(req.cookies, Authentication.RefreshCookie);
        assert HandlerStep(env, s, v, req, users, nextId, auth).result == RefreshStep(env, s, req, users);
        if Filled(token) {
          SessionCookieKeys(s, Serializers.RefreshValidate(env, users, token.value).value);
        }
      case LogoutView =>
      case CurrentUserView =>
        if req.verb == PUT {
          var r := Serializers.ValidateUpdate(env, users, auth.user, req.data, req.avatarUpload);
        }
      case DeleteUserView =>
    }
  }

  lemma SessionCookieKeys(s: Settings.CookieSettings, tokens: Serializers.TokenPair)
    ensures SessionCookies(s, tokens).Keys == {Authentication.AccessCookie, Authentication.RefreshCookie}
  {
  }

  /** Every view answers OPTIONS once authentication and the permission check
      pass: 200 with the view's metadata, no cookie, and nothing changed. */
  lemma OptionsAnswersMetadata(env: Framework.Env, debug: bool, v: View, req: Request, users: seq<User>, nextId: nat)
    requires Unique(users) && Below(users, nextId) && req.verb == OPTIONS
    ensures var st := Serve(env, debug, v, req, users, nextId);
      var auth := AuthenticateFor(env, v, users, req);
      st.users == users && st.nextId == nextId &&
      (!auth.Rejected? && Permitted(v, auth) <==> st.result.value == Reply(200, Metadata(v), map[]))
  {
    var auth := AuthenticateFor(env, v, users, req);
    if !auth.Rejected? && Permitted(v, auth) {
      ServeHandled(env, debug, v, req, users, nextId);
    }
  }

  /** HEAD runs the GET handler: the profile view answers HEAD exactly as it
      answers GET, and changes nothing. */
  lemma HeadIsGet(env: Framework.Env, debug: bool, req: Request, users: seq<User>, nextId: nat)
    requires Unique(users) && Below(users, nextId) && req.verb == HEAD
    ensures Serve(env, debug, CurrentUserView, req, users, nextId) ==
            Serve(env, debug, CurrentUserView, req.(verb := GET), users, nextId)
    ensures Serve(env, debug, CurrentUserView, req, users, nextId).users == users
  {
    var get := req.(verb := GET);
    assert AuthenticateFor(env, CurrentUserView, users, req) == AuthenticateFor(env, CurrentUserView, users, get);
    var auth := AuthenticateFor(env, CurrentUserView, users, req);
    if !auth.Rejected? && Permitted(CurrentUserView, auth) {
      ServeHandled(env, debug, CurrentUserView, req, users, nextId);
      ServeHandled(env, debug, CurrentUserView, get, users, nextId);
    }
  }

  /** A method a view has no handler for is refused with 405 once the request
      has passed authentication and the permission check. */
  lemma UnhandledMethodIs405(env: Framework.Env, debug: bool, v: View, req: Request, users: seq<User>, nextId: nat)
    requires Unique(users) && Below(users, nextId) && !Handles(v, req.verb)
    ensures var st := Serve(env, debug, v, req, users, nextId);
      var auth := AuthenticateFor(env, v, users, req);
      st.users == users &&
      (!auth.Rejected? && Permitted(v, auth) <==> st.result.value.status == 405)
  {
  }
}
