/** The library services the backend relies on, reduced to oracles: the JWT
    implementation (token issue and validation), password hashing, e-mail
    syntax and normalisation, image decoding, and absolute-URI building. Each is a pure
    function chosen by the caller; nothing about them is assumed except where
    a lemma states it as a precondition. */
module Framework {
  import opened Common

  /** The claims of a token this project cares about: `user_id`. */
  datatype Claims = Claims(userId: nat)

  datatype Env = Env(
    // `BaseUserManager.normalize_email`
    normalizeEmail: string -> string,
    // `set_password` stores this digest; `check_password` compares against it
    hashPassword: string -> string,
    // Django's e-mail syntax validator
    isEmail: string -> bool,
    // `request.build_absolute_uri`
    absoluteUri: string -> string,
    // `JWTAuthentication.get_validated_token`: the claims, or the reason it is invalid
    validateAccess: string -> Result<Claims, string>,
    // `RefreshToken(token)` followed by `verify()`: the claims, or the `TokenError` message
    validateRefresh: string -> Result<Claims, string>,
    // `str(refresh.access_token)`: an access token carrying the refresh token's claims
    accessFor: Claims -> string,
    // `str(RefreshToken.for_user(user))`
    refreshFor: nat -> string,
    // Pillow opens and verifies the uploaded file as an image
    isImage: Upload -> bool,
    // `validate_image_file_extension`: the file name ends with an extension Pillow reads
    imageExtension: string -> bool,
    // the storage's `get_valid_name`: the file name with unsafe characters replaced
    validName: string -> string)

  /** A file uploaded with a multipart form: its name and its size in bytes. */
  datatype Upload = Upload(name: string, size: nat)

  /** The token oracles issue non-empty tokens and accept what they issue,
      with the claims they issued it with. */
  ghost predicate Coherent(env: Env) {
    (forall c: Claims :: env.accessFor(c) != "" && env.validateAccess(env.accessFor(c)) == Ok(c)) &&
    (forall id: nat :: env.refreshFor(id) != "" && env.validateRefresh(env.refreshFor(id)) == Ok(Claims(id)))
  }

  /** `check_password(raw)` against a stored digest. A missing password never matches. */
  function CheckPassword(env: Env, digest: string, raw: Option<string>): (ok: bool)
    ensures ok ==> raw.Some?
    ensures raw.Some? ==> (ok <==> env.hashPassword(raw.value) == digest)
  {
    raw.Some? && env.hashPassword(raw.value) == digest
  }
}
