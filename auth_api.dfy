/** The client's session API (`frontend/src/services/backend-api/authApi.ts`):
    for every operation the request it sends, and how it turns the transport's
    answer into a resolved value or a thrown error. The transport itself (the
    axios-based `BaseApi`) is not part of this model: each call is given its
    outcome as a `Transport` value. */
module AuthApi {
  import opened Common

  datatype Verb = Get | Post | Put | Delete

  /** What an operation sends: method, path, and the headers it adds. */
  datatype Call = Call(verb: Verb, path: string, headers: map<string, string>)

  /** How the transport settles one request. `data` is the parsed response body. */
  datatype Transport =
    | Delivered(data: Json)                    // a 2xx response
    | HttpError(status: nat, body: Option<Json>) // an axios error carrying a response
    | NoResponse                               // an axios error without a response
    | NonAxiosError                            // anything else thrown

  /** What an operation throws: the transport's own error, or an `Error` it
      builds. The message of such an `Error` is kept as the value it was built
      from. */
  datatype Thrown = Propagated(cause: Transport) | Raised(message: Json)

  /** How an operation's promise settles; `Resolved(None)` is `undefined`. */
  datatype Settled = Resolved(value: Option<Json>) | Threw(error: Thrown)

  datatype Operation =
    | RegisterOp | LoginOp | LogoutOp | DeleteAccountOp
    | GetUserOp | RefreshTokenOp | UpdateProfileOp | ChangePasswordOp

  const DataInUse: string := "Указанные данные уже используются. Пожалуйста, проверьте введенные данные."
  const TryAgain: string := "Произошла ошибка. Пожалуйста, попробуйте ещё раз."
  const InvalidFormat: string := "Invalid response format."
  const RefreshFailed: string := "Failed to refresh token."

  /** JavaScript truthiness of a JSON value. */
  predicate Truthy(j: Json) {
    match j
    case JNull => false
    case JBool(b) => b
    case JNum(n) => n != 0
    case JStr(s) => s != ""
    case JArr(_) => true
    case JObj(_) => true
  }

  /** `j.key`: the property of an object, `undefined` (None) when it is
      absent or `j` is not an object. */
  function Prop(j: Json, key: string): (p: Option<Json>)
    ensures p.Some? <==> j.JObj? && key in j.fields
    ensures p.Some? ==> p.value == j.fields[key]
  {
    if j.JObj? && key in j.fields then Some(j.fields[key]) else None
  }

  /** `j.key` tested with `if`. */
  predicate HasTruthy(j: Json, key: string) {
    Prop(j, key).Some? && Truthy(Prop(j, key).value)
  }

  /** The request each operation sends. */
  function CallOf(op: Operation): (c: Call)
    // `getUser` is the only read and always bypasses caches
    ensures c.verb == Get <==> op == GetUserOp
    ensures op == GetUserOp ==> c.headers == map["Cache-Control" := "no-store"]
    // `updateProfile` is the only write that uploads a form
    ensures c.verb == Put <==> op == UpdateProfileOp
    ensures op == UpdateProfileOp ==> c.headers == map["Content-Type" := "multipart/form-data"]
    ensures c.verb == Delete <==> op == DeleteAccountOp
    // every other operation is a bare POST
    ensures op != GetUserOp && op != UpdateProfileOp ==> c.headers == map[]
  {
    match op
    case RegisterOp => Call(Post, "api/auth/v1/register/", map[])
    case LoginOp => Call(Post, "/api/auth/v1/login/", map[])
    case LogoutOp => Call(Post, "/api/auth/v1/logout/", map[])
    case DeleteAccountOp => Call(Delete, "/api/auth/v1/users/delete/", map[])
    case GetUserOp => Call(Get, "/api/auth/v1/users/", map["Cache-Control" := "no-store"])
    case RefreshTokenOp => Call(Post, "/api/auth/v1/refresh/", map[])
    case UpdateProfileOp => Call(Put, "/api/auth/v1/users/", map["Content-Type" := "multipart/form-data"])
    case ChangePasswordOp => Call(Post, "/api/users/set_password/", map[])
  }

  /** `const response = await this.<verb>(...); return response;`: the body on
      success, the transport's error otherwise. */
  function PassThrough(t: Transport): (s: Settled)
    ensures s.Resolved? <==> t.Delivered?
    ensures t.Delivered? ==> s == Resolved(Some(t.data))
    ensures !t.Delivered? ==> s == Threw(Propagated(t))
  {
    match t
    case Delivered(d) => Resolved(Some(d))
    case _ => Threw(Propagated(t))
  }

  /** The message `register` throws for a failed response body. */
  function RegisterMessage(body: Json): (m: string)
    ensures m == DataInUse <==> HasTruthy(body, "email") || HasTruthy(body, "username")
    ensures m == DataInUse || m == TryAgain
  {
    if HasTruthy(body, "email") || HasTruthy(body, "username") then DataInUse else TryAgain
  }

  /** `register`: a failed response with a truthy body becomes one of two
      messages, chosen by the body's top-level `email` and `username`; every
      other failure is swallowed and the call resolves with `undefined`. */
  function Register(t: Transport): (s: Settled)
    ensures t.Delivered? ==> s == Resolved(Some(t.data))
    ensures s.Threw? <==> t.HttpError? && t.body.Some? && Truthy(t.body.value)
    ensures s.Threw? ==> s.error == Raised(JStr(RegisterMessage(t.body.value)))
    ensures !t.Delivered? && !s.Threw? ==> s == Resolved(None)
    // the transport's own error never escapes
    ensures !(s.Threw? && s.error.Propagated?)
  {
    match t
    case Delivered(d) => Resolved(Some(d))
    case HttpError(_, body) =>
      if body.Some? && Truthy(body.value) then Threw(Raised(JStr(RegisterMessage(body.value))))
      else Resolved(None)
    case NoResponse => Resolved(None)
    case NonAxiosError => Resolved(None)
  }

  /** The message `register` evidently means to throw: the backend reports
      field errors nested under `errors`, so that is where a taken email or
      username shows up. */
  function RegisterMessageCorrected(body: Json): (m: string)
    ensures m == DataInUse <==>
      HasTruthy(body, "email") || HasTruthy(body, "username") ||
      (Prop(body, "errors").Some? &&
       (HasTruthy(body.fields["errors"], "email") || HasTruthy(body.fields["errors"], "username")))
    ensures m == DataInUse || m == TryAgain
  {
    var nested := Prop(body, "errors");
    if HasTruthy(body, "email") || HasTruthy(body, "username") then DataInUse
    else if nested.Some? && (HasTruthy(nested.value, "email") || HasTruthy(nested.value, "username")) then DataInUse
    else TryAgain
  }

  /** `register` with the corrected message; otherwise as written. */
  function RegisterCorrected(t: Transport): (s: Settled)
    ensures t.Delivered? ==> s == Resolved(Some(t.data))
    ensures s.Threw? <==> t.HttpError? && t.body.Some? && Truthy(t.body.value)
    ensures s.Threw? ==> s.error == Raised(JStr(RegisterMessageCorrected(t.body.value)))
    ensures !t.Delivered? && !s.Threw? ==> s == Resolved(None)
    // wherever the as-written call names the taken data, so does this one
    ensures Register(t).Threw? && Register(t).error == Raised(JStr(DataInUse)) ==> s == Register(t)
  {
    match t
    case Delivered(d) => Resolved(Some(d))
    case HttpError(_, body) =>
      if body.Some? && Truthy(body.value) then Threw(Raised(JStr(RegisterMessageCorrected(body.value))))
      else Resolved(None)
    case NoResponse => Resolved(None)
    case NonAxiosError => Resolved(None)
  }

  /** The shape `refreshToken` accepts: a body whose `success` is a boolean. */
  predicate WellFormedRefresh(d: Json) {
    Truthy(d) && Prop(d, "success").Some? && Prop(d, "success").value.JBool?
  }

  /** `refreshToken`: the body is returned unchanged only when `success` is
      `true`; a body without a boolean `success` is refused as malformed, and
      `success: false` throws the server's message or a fixed fallback. */
  function RefreshToken(t: Transport): (s: Settled)
    ensures s.Resolved? <==> t.Delivered? && Prop(t.data, "success") == Some(JBool(true))
    ensures s.Resolved? ==> s == Resolved(Some(t.data))
    ensures t.Delivered? && !WellFormedRefresh(t.data) ==> s == Threw(Raised(JStr(InvalidFormat)))
    ensures t.Delivered? && Prop(t.data, "success") == Some(JBool(false)) ==>
      s == Threw(Raised(if HasTruthy(t.data, "message") then t.data.fields["message"] else JStr(RefreshFailed)))
    ensures !t.Delivered? ==> s == Threw(Propagated(t))
  {
    match t
    case Delivered(d) =>
      if !WellFormedRefresh(d) then Threw(Raised(JStr(InvalidFormat)))
      else if !Prop(d, "success").value.b then
        Threw(Raised(if HasTruthy(d, "message") then Prop(d, "message").value else JStr(RefreshFailed)))
      else Resolved(Some(d))
    case _ => Threw(Propagated(t))
  }

  /** How each operation of the client settles on what the transport gave it:
      every operation resolves with the delivered body, except that
      `refreshToken` first checks the body; a resolved value is always the
      delivered body, or nothing for a `register` whose failure was swallowed. */
  function Settle(op: Operation, t: Transport): (s: Settled)
    ensures t.Delivered? && op != RefreshTokenOp ==> s == Resolved(Some(t.data))
    ensures s.Resolved? && s.value.Some? ==> t.Delivered? && s.value.value == t.data
    ensures s.Resolved? && op != RegisterOp ==> t.Delivered? && s.value == Some(t.data)
  {
    match op
    case RegisterOp => Register(t)
    case RefreshTokenOp => RefreshToken(t)
    case _ => PassThrough(t)
  }

  /** Every operation but `register` and `refreshToken` leaves errors to its
      caller unchanged and resolves with exactly what the transport delivered. */
  lemma ErrorsPropagate(op: Operation, t: Transport)
    requires op != RegisterOp && op != RefreshTokenOp
    ensures Settle(op, t).Resolved? <==> t.Delivered?
    ensures !t.Delivered? ==> Settle(op, t) == Threw(Propagated(t))
  {
    match op {
      case LoginOp =>
      case LogoutOp =>
      case DeleteAccountOp =>
      case GetUserOp =>
      case UpdateProfileOp =>
      case ChangePasswordOp =>
    }
  }

  /** `refreshToken` resolves only with a body that says `success: true`, so
      a malformed or failed body is never taken for success. */
  lemma RefreshResolvesOnlyOnSuccess(t: Transport)
    requires Settle(RefreshTokenOp, t).Resolved?
    ensures t.Delivered? && WellFormedRefresh(t.data) && t.data.fields["success"] == JBool(true)
  {
    assert Prop(t.data, "success") == Some(JBool(true));
  }

  /** `register` rejects exactly the failures that carry a truthy body. */
  lemma RegisterThrowsOnlyForBodies(t: Transport)
    requires Settle(RegisterOp, t).Threw?
    ensures t.HttpError? && t.body.Some? && Truthy(t.body.value)
  {
    assert Settle(RegisterOp, t) == Register(t);
  }
}
