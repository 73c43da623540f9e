/** The serializers (`backend/users/serializers.py`): field validation of the
    registration, login, refresh and profile forms, the `validate` hooks of
    login and refresh, and the JSON form of a user. */
module Serializers {
  import opened Common
  import Settings
  import Framework
  import opened Models
  import Backends

  /** A field-level validation failure, named by the framework's error code. */
  datatype FieldError =
    | Required | Blank | MaxLength | MinLength | NullCharacters | InvalidEmail | NotUnique
    // the checks of an image field, in the order they run
    | NotAFile | NoFileName | EmptyFile | InvalidImage | InvalidExtension

  function Code(e: FieldError): string {
    match e
    case Required => "required"
    case Blank => "blank"
    case MaxLength => "max_length"
    case MinLength => "min_length"
    case NullCharacters => "null_characters_not_allowed"
    case InvalidEmail => "invalid"
    case NotUnique => "unique"
    case NotAFile => "invalid"
    case NoFileName => "no_name"
    case EmptyFile => "empty"
    case InvalidImage => "invalid_image"
    case InvalidExtension => "invalid_extension"
  }

  /** How one input field is declared: required or not, blank allowed or not,
      length bounds (a `maxLength` of 0 means none), e-mail syntax, and whether
      it must be unique in the users table. */
  datatype FieldRule = FieldRule(
    name: string, required: bool, allowBlank: bool,
    minLength: nat, maxLength: nat, email: bool, unique: bool)

  /** The column a unique field is checked against. */
  function Column(u: User, name: string): string {
    if name == "email" then u.email else if name == "username" then u.username
    else if name == "first_name" then u.firstName else u.lastName
  }

  predicate TakenBy(others: seq<User>, name: string, value: string) {
    exists u :: u in others && Column(u, name) == value
  }

  /** The errors of one field. A missing field is an error only when it is
      required and the form is not a partial update; an empty one only when
      blanks are refused, and an allowed blank skips the other validators.
      A filled value runs every validator and collects every failure, in the
      order the field holds them: the model's uniqueness check first, then the
      length bounds, the null-character check every text field carries, and
      the e-mail syntax check last. */
  function FieldErrors(env: Framework.Env, rule: FieldRule, value: Option<string>,
                       others: seq<User>, partial: bool): (errs: seq<FieldError>)
    ensures value.None? ==> errs == (if rule.required && !partial then [Required] else [])
    ensures value == Some("") ==> errs == (if rule.allowBlank then [] else [Blank])
    ensures Filled(value) ==> errs == FilledErrors(env, rule, value.value, others)
  {
    match value
    case None => if rule.required && !partial then [Required] else []
    case Some(v) =>
      if v == "" then (if rule.allowBlank then [] else [Blank])
      else FilledErrors(env, rule, v, others)
  }

  /** The validators' errors for a filled value. */
  function FilledErrors(env: Framework.Env, rule: FieldRule, v: string, others: seq<User>): (errs: seq<FieldError>)
    ensures Required !in errs && Blank !in errs
    ensures NotUnique in errs <==> rule.unique && TakenBy(others, rule.name, v)
    ensures MaxLength in errs <==> 0 < rule.maxLength < |v|
    ensures MinLength in errs <==> |v| < rule.minLength
    ensures NullCharacters in errs <==> '\0' in v
    ensures InvalidEmail in errs <==> rule.email && !env.isEmail(v)
    // uniqueness is reported first and e-mail syntax last
    ensures NotUnique in errs ==> errs[0] == NotUnique
    ensures InvalidEmail in errs ==> errs[|errs| - 1] == InvalidEmail
  {
    var unique := if rule.unique && TakenBy(others, rule.name, v) then [NotUnique] else [];
    var checks := (if 0 < rule.maxLength < |v| then [MaxLength] else []) +
                  (if |v| < rule.minLength then [MinLength] else []) +
                  (if '\0' in v then [NullCharacters] else []);
    var email := if rule.email && !env.isEmail(v) then [InvalidEmail] else [];
    assert NotUnique !in checks + email && InvalidEmail !in unique + checks;
    unique + checks + email
  }

  /** No two fields of a form share a name. */
  predicate DistinctNames(rules: seq<FieldRule>) {
    forall i, j :: 0 <= i < j < |rules| ==> rules[i].name != rules[j].name
  }

  /** The errors of a whole form, keyed by field name; only failing fields
      appear, each with the errors of its own rule. */
  function FormErrors(env: Framework.Env, rules: seq<FieldRule>, data: map<string, string>,
                      others: seq<User>, partial: bool): (errs: map<string, seq<FieldError>>)
    // every key names a field of the form and holds at least one error
    ensures forall k :: k in errs ==> errs[k] != [] && exists i :: 0 <= i < |rules| && rules[i].name == k
    // every failing field is a key
    ensures forall i :: 0 <= i < |rules| && FieldErrors(env, rules[i], Get(data, rules[i].name), others, partial) != [] ==>
      rules[i].name in errs
    // with distinct names, a field is a key exactly when it fails, and holds exactly its own errors
    ensures DistinctNames(rules) ==>
      forall i :: 0 <= i < |rules| ==>
        (rules[i].name in errs <==> FieldErrors(env, rules[i], Get(data, rules[i].name), others, partial) != []) &&
        (rules[i].name in errs ==> errs[rules[i].name] == FieldErrors(env, rules[i], Get(data, rules[i].name), others, partial))
  {
    if rules == [] then map[]
    else
      var rest := FormErrors(env, rules[1..], data, others, partial);
      var mine := FieldErrors(env, rules[0], Get(data, rules[0].name), others, partial);
      assert DistinctNames(rules) ==> DistinctNames(rules[1..]) by {
        if DistinctNames(rules) {
          forall i, j | 0 <= i < j < |rules[1..]| ensures rules[1..][i].name != rules[1..][j].name {
            assert rules[1..][i] == rules[i + 1] && rules[1..][j] == rules[j + 1];
          }
        }
      }
      if mine == [] then rest else rest[rules[0].name := mine]
  }

  const EmailMaxLength: nat := 254
  const NameMaxLength: nat := 150
  const PasswordMinLength: nat := 8

  const EmailRule := FieldRule("email", true, false, 0, EmailMaxLength, true, true)
  const UsernameRule := FieldRule("username", true, false, 0, NameMaxLength, false, true)
  const PasswordRule := FieldRule("password", true, false, PasswordMinLength, 0, false, false)
  const FirstNameRule := FieldRule("first_name", false, true, 0, NameMaxLength, false, false)
  const LastNameRule := FieldRule("last_name", false, true, 0, NameMaxLength, false, false)

  /** `RegistrationSerializer.Meta.fields` with the declared password field. */
  const RegistrationRules: seq<FieldRule> := [EmailRule, UsernameRule, PasswordRule, FirstNameRule, LastNameRule]

  /** Each form names each of its fields once. */
  lemma FormsHaveDistinctNames()
    ensures DistinctNames(RegistrationRules) && DistinctNames(LoginRules) && DistinctNames(UpdateRules)
  {
    var r := RegistrationRules;
    assert r[0].name[0] == 'e' && r[1].name[0] == 'u' && r[2].name[0] == 'p';
    assert r[3].name[0] == 'f' && r[4].name[0] == 'l';
    assert LoginRules[0].name[0] != LoginRules[1].name[0];
  }

  /** The validated registration form. */
  datatype Registration = Registration(
    email: string, username: string, password: string,
    firstName: Option<string>, lastName: Option<string>)

  /** `RegistrationSerializer.is_valid()`: the validated data, or the errors of every failing field. */
  function ValidateRegistration(env: Framework.Env, data: map<string, string>, users: seq<User>)
    : (r: Result<Registration, map<string, seq<FieldError>>>)
    ensures r.Err? <==> FormErrors(env, RegistrationRules, data, users, false) != map[]
    ensures r.Err? ==> r.error == FormErrors(env, RegistrationRules, data, users, false)
    // the accepted values are the submitted ones
    ensures r.Ok? ==>
      "email" in data && "username" in data && "password" in data &&
      r.value == Registration(data["email"], data["username"], data["password"],
                              Get(data, "first_name"), Get(data, "last_name"))
    ensures r.Ok? ==>
      r.value.email != "" && env.isEmail(r.value.email) && !EmailTaken(users, r.value.email) &&
      r.value.username != "" && !UsernameTaken(users, r.value.username) &&
      |r.value.password| >= PasswordMinLength &&
      r.value.firstName == Get(data, "first_name") && r.value.lastName == Get(data, "last_name")
  {
    var errs := FormErrors(env, RegistrationRules, data, users, false);
    if errs != map[] then Err(errs)
    else
      RegistrationFieldsPass(env, data, users);
      Ok(Registration(data["email"], data["username"], data["password"],
                      Get(data, "first_name"), Get(data, "last_name")))
  }

  /** A registration form without errors carries a well-formed, free email,
      a non-empty free username and a long enough password. */
  lemma RegistrationFieldsPass(env: Framework.Env, data: map<string, string>, users: seq<User>)
    requires FormErrors(env, RegistrationRules, data, users, false) == map[]
    ensures "email" in data && data["email"] != "" && env.isEmail(data["email"]) && !EmailTaken(users, data["email"])
    ensures "username" in data && data["username"] != "" && !UsernameTaken(users, data["username"])
    ensures "password" in data && |data["password"]| >= PasswordMinLength
  {
    RulesChecked(env, RegistrationRules, data, users, false, 0);
    RulesChecked(env, RegistrationRules, data, users, false, 1);
    RulesChecked(env, RegistrationRules, data, users, false, 2);
    EmailFieldPasses(env, Get(data, "email"), users);
    UsernameFieldPasses(env, Get(data, "username"), users);
    PasswordFieldPasses(env, Get(data, "password"), users);
  }

  lemma EmailFieldPasses(env: Framework.Env, v: Option<string>, users: seq<User>)
    requires FieldErrors(env, EmailRule, v, users, false) == []
    ensures v.Some? && v.value != "" && env.isEmail(v.value) && !EmailTaken(users, v.value)
  {
  }

  lemma UsernameFieldPasses(env: Framework.Env, v: Option<string>, users: seq<User>)
    requires FieldErrors(env, UsernameRule, v, users, false) == []
    ensures v.Some? && v.value != "" && !UsernameTaken(users, v.value)
  {
  }

  lemma PasswordFieldPasses(env: Framework.Env, v: Option<string>, users: seq<User>)
    requires FieldErrors(env, PasswordRule, v, users, false) == []
    ensures v.Some? && |v.value| >= PasswordMinLength
  {
  }

  /** A form without errors passed every field's checks. */
  lemma RulesChecked(env: Framework.Env, rules: seq<FieldRule>, data: map<string, string>,
                     others: seq<User>, partial: bool, i: nat)
    requires FormErrors(env, rules, data, others, partial) == map[] && i < |rules|
    ensures FieldErrors(env, rules[i], Get(data, rules[i].name), others, partial) == []
  {
  }

  /** `RegistrationSerializer.create`: the arguments handed to `create_user`,
      with missing names defaulting to "". */
  function CreateFields(reg: Registration): (f: ExtraFields)
    ensures f.username == reg.username
    ensures f.firstName == (if reg.firstName.Some? then reg.firstName.value else "")
    ensures f.lastName == (if reg.lastName.Some? then reg.lastName.value else "")
    ensures !f.isStaff && !f.isSuperuser
  {
    ExtraFields(reg.username,
                match reg.firstName case Some(n) => n case None => "",
                match reg.lastName case Some(n) => n case None => "",
                false, false)
  }

  /** A validated registration can always be stored: `create_user` accepts it
      as long as normalising the address does not collide with another row. */
  lemma ValidRegistrationCreates(env: Framework.Env, data: map<string, string>, users: seq<User>, nextId: nat)
    requires ValidateRegistration(env, data, users).Ok?
    requires var reg := ValidateRegistration(env, data, users).value;
      !EmailTaken(users, env.normalizeEmail(reg.email))
    ensures var reg := ValidateRegistration(env, data, users).value;
      var r := CreateUserOutcome(users, nextId, reg.email, Some(reg.password), CreateFields(reg), env);
      r.Ok? && r.value.username == reg.username && Framework.CheckPassword(env, r.value.passwordHash, Some(reg.password))
  {
  }

  /** A pair of freshly issued tokens. */
  datatype TokenPair = TokenPair(access: string, refresh: string)

  /** The tokens issued to a user at login: a new refresh token, and the
      access token derived from it. */
  function TokensFor(env: Framework.Env, id: nat): TokenPair {
    TokenPair(env.accessFor(Framework.Claims(id)), env.refreshFor(id))
  }

  const CredentialsRequired: string := "Email and password is required"
  const InvalidCredentials: string := "Invalid credentials"

  /** `LoginSerializer.validate`: both values are needed before any backend is
      asked; then the configured backends must find the user. */
  function LoginValidate(env: Framework.Env, users: seq<User>, email: Option<string>, password: Option<string>)
    : (r: Result<TokenPair, string>)
    ensures !(Filled(email) && Filled(password)) ==> r == Err(CredentialsRequired)
    ensures Filled(email) && Filled(password) ==>
      match Backends.EmailAuthenticate(env, users, email, password)
      case None => r == Err(InvalidCredentials)
      case Some(u) => r == Ok(TokensFor(env, u.id))
    ensures r.Ok? ==> exists u :: u in users && Some(u.email) == email &&
                                  Framework.CheckPassword(env, u.passwordHash, password) &&
                                  r.value == TokensFor(env, u.id)
  {
    if Filled(email) && Filled(password) then
      Backends.ConfiguredAuthenticateIsEmailBackend(env, users, email, password);
      match Backends.Authenticate(env, Settings.AuthenticationBackends, users, email, password)
      case None => Err(InvalidCredentials)
      case Some(u) => Ok(TokensFor(env, u.id))
    else Err(CredentialsRequired)
  }

  /** The declared fields of `LoginSerializer`. */
  const LoginRules: seq<FieldRule> := [
    FieldRule("email", true, false, 0, 0, true, false),
    FieldRule("password", true, false, 0, 0, false, false)]

  datatype LoginFailure =
    | LoginFieldErrors(errors: map<string, seq<FieldError>>)  // `ValidationError`
    | LoginRejected(message: string)                          // `AuthenticationFailed`

  /** `LoginSerializer.is_valid()`: field validation first, then `validate`. */
  function ValidateLogin(env: Framework.Env, data: map<string, string>, users: seq<User>)
    : (r: Result<TokenPair, LoginFailure>)
    ensures FormErrors(env, LoginRules, data, users, false) != map[] <==> r.Err? && r.error.LoginFieldErrors?
    ensures r.Err? && r.error.LoginFieldErrors? ==> r.error.errors == FormErrors(env, LoginRules, data, users, false)
    // once the fields pass, `validate` decides: its message is the rejection, its tokens the result
    ensures FormErrors(env, LoginRules, data, users, false) == map[] ==>
      match LoginValidate(env, users, Get(data, "email"), Get(data, "password"))
      case Err(m) => r == Err(LoginRejected(m))
      case Ok(pair) => r == Ok(pair)
  {
    var errs := FormErrors(env, LoginRules, data, users, false);
    if errs != map[] then Err(LoginFieldErrors(errs))
    else match LoginValidate(env, users, Get(data, "email"), Get(data, "password"))
      case Err(m) => Err(LoginRejected(m))
      case Ok(pair) => Ok(pair)
  }

  /** The "required" branch of `validate` can never fire through `is_valid`:
      the field declarations already refuse a missing or blank email or password. */
  lemma CredentialsRequiredUnreachable(env: Framework.Env, data: map<string, string>, users: seq<User>)
    ensures ValidateLogin(env, data, users) != Err(LoginRejected(CredentialsRequired))
  {
    var errs := FormErrors(env, LoginRules, data, users, false);
    if errs == map[] {
      RulesChecked(env, LoginRules, data, users, false, 0);
      RulesChecked(env, LoginRules, data, users, false, 1);
      RequiredFieldFilled(env, LoginRules[0], Get(data, "email"), users);
      RequiredFieldFilled(env, LoginRules[1], Get(data, "password"), users);
      var outcome := LoginValidate(env, users, Get(data, "email"), Get(data, "password"));
      assert outcome == Err(InvalidCredentials) || outcome.Ok?;
      assert InvalidCredentials[0] != CredentialsRequired[0];
    } else {
      assert ValidateLogin(env, data, users).error.LoginFieldErrors?;
    }
  }

  /** A required field that refuses blanks and passes was given a non-empty value. */
  lemma RequiredFieldFilled(env: Framework.Env, rule: FieldRule, v: Option<string>, others: seq<User>)
    requires rule.required && !rule.allowBlank && FieldErrors(env, rule, v, others, false) == []
    ensures Filled(v)
  {
  }

  datatype RefreshFailure =
    | InvalidToken(message: string)  // a `TokenError`, re-raised as `InvalidToken`
    | UserMissing                    // `User.DoesNotExist`, which nothing catches

  /** `RefreshSerializer.validate`: verify the submitted refresh token, look up
      its user, then derive an access token from the submitted token and issue
      a new refresh token for the user. */
  function RefreshValidate(env: Framework.Env, users: seq<User>, token: string): (r: Result<TokenPair, RefreshFailure>)
    ensures env.validateRefresh(token).Err? <==> r.Err? && r.error.InvalidToken?
    ensures env.validateRefresh(token).Err? ==> r == Err(InvalidToken(env.validateRefresh(token).error))
    ensures r == Err(UserMissing) <==>
      env.validateRefresh(token).Ok? && Backends.GetUser(users, env.validateRefresh(token).value.userId).None?
    ensures r.Ok? ==>
      var claims := env.validateRefresh(token).value;
      r.value.access == env.accessFor(claims) &&
      r.value.refresh == env.refreshFor(claims.userId) &&
      exists u :: u in users && u.id == claims.userId
  {
    match env.validateRefresh(token)
    case Err(m) => Err(InvalidToken(m))
    case Ok(claims) =>
      match Backends.GetUser(users, claims.userId)
      case None => Err(UserMissing)
      case Some(u) => Ok(TokenPair(env.accessFor(claims), env.refreshFor(u.id)))
  }

  /** `UserSerializer.Meta.fields`. */
  const UserFields: seq<string> := ["id", "email", "username", "first_name", "last_name", "avatar"]

  /** The JSON form of a user. The `avatar` image field yields null when no
      file is set, and otherwise the file's URL, made absolute when the
      serializer was given the request. */
  function Represent(env: Framework.Env, u: User, withRequest: bool): (j: Json)
    ensures j.JObj? && j.fields.Keys == set f | f in UserFields
    ensures j.JObj? ==> j.fields["id"] == JNum(u.id) && j.fields["email"] == JStr(u.email)
    ensures j.JObj? ==>
      (j.fields["username"] == JStr(u.username) &&
       j.fields["first_name"] == JStr(u.firstName) && j.fields["last_name"] == JStr(u.lastName))
    ensures j.JObj? ==> (j.fields["avatar"] == JNull <==> u.avatar == "")
    ensures j.JObj? && u.avatar != "" ==>
      j.fields["avatar"] == JStr(if withRequest then env.absoluteUri(AvatarUrl(u)) else AvatarUrl(u))
  {
    var avatar :=
      if u.avatar == "" then JNull
      else if withRequest then JStr(env.absoluteUri(Settings.MediaUrl + u.avatar))
      else JStr(Settings.MediaUrl + u.avatar);
    JObj(map["id" := JNum(u.id), "email" := JStr(u.email), "username" := JStr(u.username),
             "first_name" := JStr(u.firstName), "last_name" := JStr(u.lastName), "avatar" := avatar])
  }

  /** `UserSerializer.get_avatar`: nothing without a request, otherwise the
      absolute URL of the model's avatar URL. */
  function GetAvatar(env: Framework.Env, u: User, withRequest: bool): (url: Option<string>)
    ensures url.None? <==> !withRequest
    ensures withRequest ==> url == Some(env.absoluteUri(AvatarUrl(u)))
  {
    if !withRequest then None
    else if u.avatar != "" then Some(env.absoluteUri(Settings.MediaUrl + u.avatar))
    else Some(env.absoluteUri("/default-avatar.png"))
  }

  /** `get_avatar` is not what the serializer emits: for a user without an
      avatar the response carries null, never the default picture. */
  lemma GetAvatarIsNotEmitted(env: Framework.Env, u: User)
    requires u.avatar == ""
    ensures Represent(env, u, true).fields["avatar"] == JNull
    ensures GetAvatar(env, u, true) == Some(env.absoluteUri(DefaultAvatar))
  {
  }

  /** The fields a profile update may change. */
  const UpdateRules: seq<FieldRule> := [EmailRule, UsernameRule, FirstNameRule, LastNameRule]

  /** The other rows, against which uniqueness is checked on update. */
  function Others(users: seq<User>, id: nat): seq<User> {
    Without(users, id)
  }

  /** Two rows with different keys differ in email and in username. */
  lemma RowsDiffer(users: seq<User>, a: User, b: User)
    requires Unique(users) && a in users && b in users && a.id != b.id
    ensures a.email != b.email && a.username != b.username
  {
    var i :| 0 <= i < |users| && users[i] == a;
    var j :| 0 <= j < |users| && users[j] == b;
    assert i != j;
  }

  /** What a multipart form carries under `avatar`: nothing, a text value, or
      a file. A file wins over a text value of the same name. */
  datatype AvatarInput = AvatarAbsent | AvatarText(text: string) | AvatarFile(file: Framework.Upload)

  function AvatarInputOf(data: map<string, string>, upload: Option<Framework.Upload>): AvatarInput {
    if upload.Some? then AvatarFile(upload.value)
    else if "avatar" in data then AvatarText(data["avatar"])
    else AvatarAbsent
  }

  /** The errors of the `avatar` image field (not required, null allowed) in
      a partial update. An absent value is skipped and a blank one stands for
      null; any other text is not a file. A file must have a name and some
      content, decode as an image and carry an image extension; the first
      check that fails is the only error. */
  function AvatarErrors(env: Framework.Env, a: AvatarInput): (errs: seq<FieldError>)
    ensures |errs| <= 1
    ensures errs == [] <==>
      a.AvatarAbsent? || a == AvatarText("") ||
      (a.AvatarFile? && a.file.name != "" && a.file.size > 0 &&
       env.isImage(a.file) && env.imageExtension(a.file.name))
    ensures a.AvatarText? && a.text != "" ==> errs == [NotAFile]
    ensures a.AvatarFile? && a.file.name == "" ==> errs == [NoFileName]
    ensures a.AvatarFile? && a.file.name != "" && a.file.size == 0 ==> errs == [EmptyFile]
    ensures a.AvatarFile? && a.file.name != "" && a.file.size > 0 && !env.isImage(a.file) ==> errs == [InvalidImage]
    ensures a.AvatarFile? && a.file.name != "" && a.file.size > 0 && env.isImage(a.file) && !env.imageExtension(a.file.name) ==>
      errs == [InvalidExtension]
  {
    match a
    case AvatarAbsent => []
    case AvatarText(t) => if t == "" then [] else [NotAFile]
    case AvatarFile(f) =>
      if f.name == "" then [NoFileName]
      else if f.size == 0 then [EmptyFile]
      else if !env.isImage(f) then [InvalidImage]
      else if !env.imageExtension(f.name) then [InvalidExtension]
      else []
  }

  /** The errors of a profile update: those of the declared text fields, and
      the avatar's under `avatar`. */
  function UpdateErrors(env: Framework.Env, users: seq<User>, user: User,
                        data: map<string, string>, upload: Option<Framework.Upload>)
    : (errs: map<string, seq<FieldError>>)
    ensures var form := FormErrors(env, UpdateRules, data, Others(users, user.id), true);
      var avatar := AvatarErrors(env, AvatarInputOf(data, upload));
      (errs == map[] <==> form == map[] && avatar == []) &&
      ("avatar" in errs <==> avatar != []) &&
      ("avatar" in errs ==> errs["avatar"] == avatar) &&
      (forall k :: k in errs && k != "avatar" ==> k in form) &&
      (forall k :: k in form ==> k in errs && errs[k] == form[k])
  {
    var form := FormErrors(env, UpdateRules, data, Others(users, user.id), true);
    var avatar := AvatarErrors(env, AvatarInputOf(data, upload));
    AvatarIsNoTextField(form, env, data, Others(users, user.id));
    if avatar == [] then form else form["avatar" := avatar]
  }

  /** None of the update's text fields is called `avatar`. */
  lemma AvatarIsNoTextField(form: map<string, seq<FieldError>>, env: Framework.Env,
                            data: map<string, string>, others: seq<User>)
    requires form == FormErrors(env, UpdateRules, data, others, true)
    ensures "avatar" !in form
  {
    assert forall i :: 0 <= i < |UpdateRules| ==> UpdateRules[i].name != "avatar" by {
      forall i | 0 <= i < |UpdateRules| ensures UpdateRules[i].name != "avatar" {
        assert UpdateRules[i].name[0] != 'a';
      }
    }
  }

  /** `user` with the given fields copied in; an uploaded avatar is stored
      under `avatars/` by its storage-safe name, and a blank one clears the
      avatar. `id`, the password and the flags are not fields of the form. */
  function Applied(env: Framework.Env, user: User, data: map<string, string>, upload: Option<Framework.Upload>): User {
    user.(
      email := if "email" in data then data["email"] else user.email,
      username := if "username" in data then data["username"] else user.username,
      firstName := if "first_name" in data then data["first_name"] else user.firstName,
      lastName := if "last_name" in data then data["last_name"] else user.lastName,
      avatar := match AvatarInputOf(data, upload)
        case AvatarFile(f) => "avatars/" + env.validName(f.name)
        case AvatarText(_) => ""
        case AvatarAbsent => user.avatar)
  }

  /** An update that passes validation clashes with no other row. */
  lemma AppliedFits(env: Framework.Env, users: seq<User>, user: User,
                    data: map<string, string>, upload: Option<Framework.Upload>)
    requires Unique(users) && user in users
    requires FormErrors(env, UpdateRules, data, Others(users, user.id), true) == map[]
    ensures FitsAmong(users, Applied(env, user, data, upload))
  {
    var others := Others(users, user.id);
    var updated := Applied(env, user, data, upload);
    RulesChecked(env, UpdateRules, data, others, true, 0);
    RulesChecked(env, UpdateRules, data, others, true, 1);
    forall v | v in users && v.id != user.id
      ensures v.email != updated.email && v.username != updated.username
    {
      assert v in others;
      RowsDiffer(users, v, user);
    }
  }

  /** `UserSerializer(user, data, partial=True)`: only the given fields are
      checked, uniqueness against the other rows; each given field is taken,
      and nothing else about the row changes. */
  function ValidateUpdate(env: Framework.Env, users: seq<User>, user: User,
                          data: map<string, string>, upload: Option<Framework.Upload>)
    : (r: Result<User, map<string, seq<FieldError>>>)
    requires Unique(users) && user in users
    ensures r.Err? <==>
      FormErrors(env, UpdateRules, data, Others(users, user.id), true) != map[] ||
      AvatarErrors(env, AvatarInputOf(data, upload)) != []
    ensures r.Err? ==> r.error == UpdateErrors(env, users, user, data, upload)
    ensures r.Ok? ==>
      (r.value.id == user.id && r.value.passwordHash == user.passwordHash &&
       r.value.isActive == user.isActive && r.value.isStaff == user.isStaff && r.value.isSuperuser == user.isSuperuser)
    ensures r.Ok? ==> r.value.email == (if "email" in data then data["email"] else user.email)
    ensures r.Ok? ==> r.value.username == (if "username" in data then data["username"] else user.username)
    ensures r.Ok? ==> r.value.firstName == (if "first_name" in data then data["first_name"] else user.firstName)
    ensures r.Ok? ==> r.value.lastName == (if "last_name" in data then data["last_name"] else user.lastName)
    // a file is stored under `avatars/` by its storage-safe name, a blank value clears the avatar, no value keeps it
    ensures r.Ok? ==>
      (r.value.avatar ==
        match AvatarInputOf(data, upload)
        case AvatarFile(f) => "avatars/" + env.validName(f.name)
        case AvatarText(_) => ""
        case AvatarAbsent => user.avatar)
    ensures r.Ok? ==> FitsAmong(users, r.value)
  {
    var errs := UpdateErrors(env, users, user, data, upload);
    if errs != map[] then Err(errs)
    else
      AppliedFits(env, users, user, data, upload);
      Ok(Applied(env, user, data, upload))
  }
}
