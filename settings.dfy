/** The session-related part of the Django settings: the DEBUG switch, the
    cookie attributes derived from it, the token lifetimes, the REST framework
    defaults and the order of the authentication backends. */
module Settings {
  import opened Common

  /** `DEBUG` is read from the environment and is on only for the exact text "True". */
  function Debug(env: Option<string>): (debug: bool)
    ensures debug <==> env == Some("True")
    ensures env == Some("true") || env == Some("1") || env == Some("") || env == None ==> !debug
  {
    match env
    case None => false
    case Some(text) => text == "True"
  }

  datatype SameSite = SameSiteLax | SameSiteNone

  /** The attributes every session cookie is written with. Ages are in seconds. */
  datatype CookieSettings = CookieSettings(
    httpOnly: bool,
    secure: bool,
    sameSite: SameSite,
    accessMaxAge: nat,
    refreshMaxAge: nat)

  const Minute: nat := 60
  const Day: nat := 24 * 60 * Minute

  /** `SIMPLE_JWT` lifetimes, in seconds. */
  const AccessTokenLifetime: nat := 15 * Minute
  const RefreshTokenLifetime: nat := 14 * Day

  /** `COOKIE_SETTINGS`, as a function of `DEBUG`. */
  function Cookies(debug: bool): (c: CookieSettings)
    ensures c.httpOnly
    ensures c.secure <==> !debug
    ensures c.sameSite == SameSiteLax <==> debug
    // a cross-site cookie (SameSite=None) is only ever sent with Secure
    ensures c.sameSite == SameSiteNone ==> c.secure
    // the access cookie lives exactly as long as the access token it carries
    ensures c.accessMaxAge == AccessTokenLifetime
    // the refresh cookie is dropped by the browser a week before its token expires
    ensures c.refreshMaxAge + 7 * Day == RefreshTokenLifetime
  {
    CookieSettings(
      httpOnly := true,
      secure := !debug,
      sameSite := if !debug then SameSiteNone else SameSiteLax,
      accessMaxAge := 60 * 15,
      refreshMaxAge := 60 * 60 * 24 * 7)
  }

  /** `REST_FRAMEWORK` defaults: one authentication class and one permission class. */
  datatype Authenticator = CookieJwtAuthentication
  datatype Permission = AllowAny | IsAuthenticated

  const DefaultAuthenticationClasses: seq<Authenticator> := [CookieJwtAuthentication]
  const DefaultPermissionClasses: seq<Permission> := [IsAuthenticated]

  /** `AUTHENTICATION_BACKENDS`, in the order Django tries them. */
  datatype AuthBackend = EmailBackend | ModelBackend

  const AuthenticationBackends: seq<AuthBackend> := [EmailBackend, ModelBackend]

  /** `MEDIA_URL`: the prefix under which uploaded files are served. */
  const MediaUrl: string := "/media/"
}
